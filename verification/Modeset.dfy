/** The modesetting example tdrm1.c: a greedy CRTC allocator, framebuffer creation with goto-style
    unwinding, and save, set and restore of every CRTC used. The kernel is an abstract state; every
    call that can fail fails when it likes. */
module Modeset {
  import opened Common

  /** Kernel object ids are 32-bit unsigned. */
  type Id = x: int | 0 <= x < 0x1_0000_0000

  datatype Crtc = Crtc(buffer: nat, x: int, y: int, mode: int)

  const OFF := Crtc(0, 0, 0, 0)

  datatype Encoder = Encoder(crtcId: Id, possibleCrtcs: nat)

  datatype Mode = Mode(hdisplay: nat, vdisplay: nat, timing: int)

  datatype Connector = Connector(id: Id, connected: bool, modes: seq<Mode>, encoderId: Id, encoders: seq<Id>)

  datatype Resources = Resources(crtcs: seq<Id>, connectors: seq<Id>)

  /** Something libdrm or malloc allocated: `token` must be freed once. */
  datatype Owned<T> = Owned(token: nat, value: T)

  /** A call of drmModeSetCrtc: the CRTC, the one connector it is to drive, what it is to show, and the answer. */
  datatype SetCall = SetCall(id: Id, conn: Id, picture: Crtc, ok: bool)

  datatype KernelState = KernelState(
    crtcs: map<Id, Crtc>,
    handles: set<nat>, fbs: set<nat>, maps: set<nat>,   // dumb buffers, framebuffers, mappings
    tokens: set<nat>,                                   // allocations not freed yet
    next: nat)                                          // above every number in use
  {
    ghost predicate Valid()
    {
      && next > 0
      && (forall h | h in handles :: h < next) && (forall f | f in fbs :: 0 < f < next)
      && (forall m | m in maps :: m < next) && (forall t | t in tokens :: t < next)
      && (forall c | c in crtcs :: crtcs[c].buffer < next)
    }
  }

  // ---------------------------------------------------------------------------
  // The kernel and libdrm
  // ---------------------------------------------------------------------------

  class Kernel {
    var k: KernelState
    ghost var asked: seq<Asked>    // every encoder asked for so far, and what came back
    ghost var sets: seq<SetCall>   // every call that set a CRTC so far
    ghost var failures: nat        // how many calls of the other kinds have failed
    const resources: Resources
    const connectors: map<Id, Connector>
    const encoders: map<Id, Encoder>

    /** What the driver guarantees: the CRTCs it lists, and those its encoders are bound to, exist. */
    ghost predicate Sane()
      reads this
    {
      && k.Valid()
      && (forall i | 0 <= i < |resources.crtcs| :: resources.crtcs[i] in k.crtcs)
      && (forall e | e in encoders && encoders[e].crtcId != 0 :: encoders[e].crtcId in k.crtcs)
    }

    method Allocate() returns (token: nat)
      requires k.Valid()
      modifies this`k
      ensures token !in old(k.tokens) && k.Valid() && old(k.next) <= k.next
      ensures k == old(k).(tokens := old(k.tokens) + {token}, next := k.next)
    {
      token := k.next;
      k := k.(tokens := k.tokens + {token}, next := k.next + 1);
    }

    /** Frees an allocation; freeing twice, or freeing what was never allocated, is not allowed. */
    method Free(token: nat)
      requires k.Valid() && token in k.tokens
      modifies this`k
      ensures k == old(k).(tokens := old(k.tokens) - {token}) && k.Valid()
    {
      k := k.(tokens := k.tokens - {token});
    }

    /** `modeset_open`: the device may be missing or lack dumb buffers. */
    method Open() returns (ok: bool)
      modifies this`failures
      ensures failures == old(failures) + if ok then 0 else 1
    {
      if * {
        failures := failures + 1;
        return false;
      }
      return true;
    }

    method GetResources() returns (r: Option<Owned<Resources>>)
      requires k.Valid()
      modifies this`k, this`failures
      ensures k.Valid() && old(k.next) <= k.next
      ensures r.None? ==> k == old(k)
      ensures r.Some? ==> r.value.value == resources && r.value.token !in old(k.tokens)
                          && k == old(k).(tokens := old(k.tokens) + {r.value.token}, next := k.next)
      ensures failures == old(failures) + if r.None? then 1 else 0
    {
      if * {
        failures := failures + 1;
        return None;
      }
      var t := Allocate();
      r := Some(Owned(t, resources));
    }

    method GetConnector(id: Id) returns (r: Option<Owned<Connector>>)
      requires k.Valid()
      modifies this`k, this`failures
      ensures k.Valid() && old(k.next) <= k.next
      ensures r.None? ==> k == old(k)
      ensures r.Some? ==> id in connectors && r.value.value == connectors[id] && r.value.token !in old(k.tokens)
                          && k == old(k).(tokens := old(k.tokens) + {r.value.token}, next := k.next)
      ensures failures == old(failures) + if r.None? then 1 else 0
    {
      if * {
        failures := failures + 1;
        return None;
      }
      if id !in connectors {
        failures := failures + 1;
        return None;
      }
      var t := Allocate();
      r := Some(Owned(t, connectors[id]));
    }

    method GetEncoder(id: Id) returns (r: Option<Owned<Encoder>>)
      requires k.Valid()
      modifies this`k, this`asked
      ensures k.Valid() && old(k.next) <= k.next
      ensures r.None? ==> k == old(k)
      ensures asked == old(asked) + [Asked(id, if r.Some? then Some(r.value.value) else None)]
      ensures r.Some? ==> id in encoders && r.value.value == encoders[id] && r.value.token !in old(k.tokens)
                          && k == old(k).(tokens := old(k.tokens) + {r.value.token}, next := k.next)
    {
      if * {
        asked := asked + [Asked(id, None)];
        return None;
      }
      if id !in encoders {
        asked := asked + [Asked(id, None)];
        return None;
      }
      asked := asked + [Asked(id, Some(encoders[id]))];
      var t := Allocate();
      r := Some(Owned(t, encoders[id]));
    }

    method CreateDumb() returns (r: Option<nat>)
      requires k.Valid()
      modifies this`k, this`failures
      ensures k.Valid() && old(k.next) <= k.next
      ensures r.None? ==> k == old(k)
      ensures r.Some? ==> r.value !in old(k.handles)
                          && k == old(k).(handles := old(k.handles) + {r.value}, next := k.next)
      ensures failures == old(failures) + if r.None? then 1 else 0
    {
      if * {
        failures := failures + 1;
        return None;
      }
      r := Some(k.next);
      k := k.(handles := k.handles + {k.next}, next := k.next + 1);
    }

    /** A new framebuffer id is in use nowhere, on no CRTC either. */
    method AddFb(handle: nat) returns (r: Option<nat>)
      requires k.Valid() && handle in k.handles
      modifies this`k, this`failures
      ensures k.Valid() && old(k.next) <= k.next
      ensures r.None? ==> k == old(k)
      ensures r.Some? ==> r.value > 0 && r.value !in old(k.fbs)
                          && (forall c | c in old(k.crtcs) :: old(k.crtcs)[c].buffer != r.value)
                          && k == old(k).(fbs := old(k.fbs) + {r.value}, next := k.next)
      ensures failures == old(failures) + if r.None? then 1 else 0
    {
      if * {
        failures := failures + 1;
        return None;
      }
      r := Some(k.next);
      k := k.(fbs := k.fbs + {k.next}, next := k.next + 1);
    }

    method MapDumb(handle: nat) returns (ok: bool)
      requires k.Valid() && handle in k.handles
      modifies this`failures
      ensures failures == old(failures) + if ok then 0 else 1
    {
      if * {
        failures := failures + 1;
        return false;
      }
      return true;
    }

    method Mmap() returns (r: Option<nat>)
      requires k.Valid()
      modifies this`k, this`failures
      ensures k.Valid() && old(k.next) <= k.next
      ensures r.None? ==> k == old(k)
      ensures r.Some? ==> r.value !in old(k.maps) && k == old(k).(maps := old(k.maps) + {r.value}, next := k.next)
      ensures failures == old(failures) + if r.None? then 1 else 0
    {
      if * {
        failures := failures + 1;
        return None;
      }
      r := Some(k.next);
      k := k.(maps := k.maps + {k.next}, next := k.next + 1);
    }

    method Munmap(m: nat)
      requires k.Valid() && m in k.maps
      modifies this`k
      ensures k == old(k).(maps := old(k.maps) - {m}) && k.Valid()
    {
      k := k.(maps := k.maps - {m});
    }

    /** Removing a framebuffer turns off every CRTC that still shows it. */
    method RmFb(fb: nat)
      requires k.Valid() && fb in k.fbs
      modifies this`k
      ensures k.Valid() && old(k.next) <= k.next
      ensures k == old(k).(fbs := old(k.fbs) - {fb}, crtcs := WithoutFb(old(k.crtcs), fb))
    {
      k := k.(fbs := k.fbs - {fb}, crtcs := WithoutFb(k.crtcs, fb));
    }

    method DestroyDumb(handle: nat)
      requires k.Valid() && handle in k.handles
      modifies this`k
      ensures k == old(k).(handles := old(k.handles) - {handle}) && k.Valid()
    {
      k := k.(handles := k.handles - {handle});
    }

    method GetCrtc(id: Id) returns (r: Option<Owned<Crtc>>)
      requires k.Valid() && id in k.crtcs
      modifies this`k, this`failures
      ensures k.Valid() && old(k.next) <= k.next
      ensures r.None? ==> k == old(k)
      ensures r.Some? ==> r.value.value == old(k.crtcs)[id] && r.value.token !in old(k.tokens)
                          && k == old(k).(tokens := old(k.tokens) + {r.value.token}, next := k.next)
      ensures failures == old(failures) + if r.None? then 1 else 0
    {
      if * {
        failures := failures + 1;
        return None;
      }
      var t := Allocate();
      r := Some(Owned(t, k.crtcs[id]));
    }

    method SetCrtc(id: Id, conn: Id, c: Crtc) returns (ok: bool)
      requires k.Valid() && id in k.crtcs && c.buffer < k.next
      modifies this`k, this`sets
      ensures k.Valid() && old(k.next) <= k.next
      ensures sets == old(sets) + [SetCall(id, conn, c, ok)]
      ensures k == if ok then old(k).(crtcs := old(k.crtcs)[id := c]) else old(k)
    {
      if * {
        sets := sets + [SetCall(id, conn, c, false)];
        return false;
      }
      sets := sets + [SetCall(id, conn, c, true)];
      k := k.(crtcs := k.crtcs[id := c]);
      return true;
    }
  }

  function WithoutFb(crtcs: map<Id, Crtc>, fb: nat): map<Id, Crtc>
  {
    map c | c in crtcs :: if crtcs[c].buffer == fb then OFF else crtcs[c]
  }

  // ---------------------------------------------------------------------------
  // The allocator
  // ---------------------------------------------------------------------------

  /** A `struct modeset_dev` of the global list; `self` is its own allocation. */
  datatype Dev = Dev(self: nat, conn: Id, mode: Mode, crtc: Id, handle: nat, fb: nat, map_: nat,
                     saved: Option<Owned<Crtc>>)

  /** `crtc` is an `int32_t` in the allocator, and a negative value means "taken". */
  function AsInt32(x: Id): int
  {
    if x < 0x8000_0000 then x else x - 0x1_0000_0000
  }

  ghost predicate Taken(list: seq<Dev>, crtc: Id)
  {
    exists i :: 0 <= i < |list| && list[i].crtc == crtc
  }

  /** What the allocator accepts: no listed device has the CRTC, and its id survives the cast. */
  ghost predicate Usable(list: seq<Dev>, crtc: Id)
  {
    !Taken(list, crtc) && crtc < 0x8000_0000
  }

  predicate Bit(mask: nat, j: nat)
  {
    if j == 0 then mask % 2 == 1 else Bit(mask / 2, j - 1)
  }

  function Pow2(j: nat): (r: nat)
    ensures r > 0
  {
    if j == 0 then 1 else 2 * Pow2(j - 1)
  }

  lemma QuotientIs(a: nat, d: nat, q: nat, r: nat)
    requires r < d && a == d * q + r
    ensures a / d == q
  {
    var other := a / d;
    assert a == d * other + a % d;
    assert other < q ==> d * (other + 1) <= d * q;
    assert other > q ==> d * (q + 1) <= d * other;
  }

  lemma HalfFirst(mask: nat, p: nat)
    requires p > 0
    ensures mask / (2 * p) == (mask / 2) / p
  {
    var half := mask / 2;
    var q, r := half / p, half % p;
    assert half == p * q + r;
    assert mask == (2 * p) * q + (2 * r + mask % 2);
    QuotientIs(mask, 2 * p, q, 2 * r + mask % 2);
  }

  /** The bit of the mask with weight 2^j, as `mask & (1 << j)` tests it. */
  lemma {:induction false} BitIs(mask: nat, j: nat)
    ensures Bit(mask, j) <==> (mask / Pow2(j)) % 2 == 1
  {
    if j > 0 {
      BitIs(mask / 2, j - 1);
      HalfFirst(mask, Pow2(j - 1));
    }
  }

  /** CRTC `j` can be driven by an encoder that was retrieved. */
  ghost predicate Fits(enc: Option<Encoder>, j: nat)
  {
    enc.Some? && (enc.value.possibleCrtcs / Pow2(j)) % 2 == 1
  }

  /** The CRTC the connector shows already is offered first. */
  ghost predicate Offers(active: Option<Encoder>, crtc: Id)
  {
    active.Some? && active.value.crtcId != 0 && active.value.crtcId == crtc
  }

  const ENOENT := 2
  const EFAULT := 14

  /** Which CRTC the allocator settles on: the active one when it is usable, and otherwise the first
      usable one in the order of encoders, then of CRTCs. */
  ghost predicate Chosen(list: seq<Dev>, crtcs: seq<Id>, active: Option<Encoder>, seen: seq<Option<Encoder>>, crtc: Id)
  {
    Usable(list, crtc) &&
    if exists c :: Offers(active, c) && Usable(list, c) then Offers(active, crtc) && seen == []
    else IsFirstFit(list, crtcs, seen, crtc)
  }

  /** The encoders before the last one offer nothing, and of that one's CRTCs this is the first usable. */
  ghost predicate IsFirstFit(list: seq<Dev>, crtcs: seq<Id>, seen: seq<Option<Encoder>>, crtc: Id)
  {
    exists j ::
      && seen != [] && 0 <= j < |crtcs| && crtcs[j] == crtc && Fits(seen[|seen| - 1], j)
      && NoneUsable(list, crtcs, seen[..|seen| - 1])
      && NoneUsableBelow(list, crtcs, seen[|seen| - 1], j)
  }

  ghost predicate NoneUsableBelow(list: seq<Dev>, crtcs: seq<Id>, enc: Option<Encoder>, n: nat)
  {
    forall j | 0 <= j < n && j < |crtcs| && Fits(enc, j) :: !Usable(list, crtcs[j])
  }

  ghost predicate NoneUsable(list: seq<Dev>, crtcs: seq<Id>, seen: seq<Option<Encoder>>)
  {
    forall i | 0 <= i < |seen| :: NoneUsableBelow(list, crtcs, seen[i], |crtcs|)
  }

  /** No CRTC that the connector could use is usable. */
  ghost predicate Exhausted(list: seq<Dev>, crtcs: seq<Id>, active: Option<Encoder>, seen: seq<Option<Encoder>>)
  {
    (forall c | Offers(active, c) :: !Usable(list, c)) && NoneUsable(list, crtcs, seen)
  }

  /** The CRTC is the active one, or the `possible_crtcs` bit of a retrieved encoder allows it. */
  ghost predicate Compatible(crtcs: seq<Id>, active: Option<Encoder>, seen: seq<Option<Encoder>>, crtc: Id)
  {
    Offers(active, crtc) || exists i, j :: 0 <= i < |seen| && 0 <= j < |crtcs| && crtcs[j] == crtc && Fits(seen[i], j)
  }

  lemma ChosenIsCompatible(list: seq<Dev>, crtcs: seq<Id>, active: Option<Encoder>, seen: seq<Option<Encoder>>,
                           crtc: Id)
    requires Chosen(list, crtcs, active, seen, crtc)
    ensures Usable(list, crtc) && Compatible(crtcs, active, seen, crtc)
  {
  }

  /** A connector is left without a CRTC exactly if each that it could use is owned by a listed device,
      or has an id that the allocator cannot represent. */
  lemma ExhaustedIff(list: seq<Dev>, crtcs: seq<Id>, active: Option<Encoder>, seen: seq<Option<Encoder>>)
    ensures Exhausted(list, crtcs, active, seen)
            <==> forall c | Compatible(crtcs, active, seen, c) :: Taken(list, c) || c >= 0x8000_0000
  {
    if forall c | Compatible(crtcs, active, seen, c) :: Taken(list, c) || c >= 0x8000_0000 {
      forall i, j | 0 <= i < |seen| && 0 <= j < |crtcs| && Fits(seen[i], j)
        ensures !Usable(list, crtcs[j])
      {
        assert Compatible(crtcs, active, seen, crtcs[j]);
      }
      forall c | Offers(active, c)
        ensures !Usable(list, c)
      {
        assert Compatible(crtcs, active, seen, c);
      }
    }
  }

  /** The second case does occur: a single CRTC that nobody owns and the connector's encoder can drive is
      refused when its id has the top bit set, since the cast makes it negative. */
  lemma LargeIdIsNeverUsed(crtc: Id)
    requires crtc >= 0x8000_0000
    ensures var seen := [Some(Encoder(0, 1))];
            && Compatible([crtc], None, seen, crtc) && !Taken([], crtc) && AsInt32(crtc) < 0
            && Exhausted([], [crtc], None, seen)
  {
    var seen := [Some(Encoder(0, 1))];
    assert Pow2(0) == 1 && Fits(seen[0], 0) && [crtc][0] == crtc;
  }

  /** One call of drmModeGetEncoder. */
  datatype Asked = Asked(id: Id, answer: Option<Encoder>)

  ghost function Zip(ids: seq<Id>, seen: seq<Option<Encoder>>): seq<Asked>
    requires |seen| <= |ids|
  {
    if seen == [] then [] else
    var n := |seen| - 1; Zip(ids, seen[..n]) + [Asked(ids[n], seen[n])]
  }

  /** The calls the allocator makes for a connector: the bound encoder first, then the others in order. */
  ghost function Calls(conn: Connector, active: Option<Encoder>, seen: seq<Option<Encoder>>): seq<Asked>
    requires |seen| <= |conn.encoders|
  {
    (if conn.encoderId != 0 then [Asked(conn.encoderId, active)] else []) + Zip(conn.encoders, seen)
  }

  /** What became of a connector. */
  datatype Outcome =
    | Unavailable
    | Unused(conn: Connector)
    | NoMode(conn: Connector)
    | NoCrtc(conn: Connector, active: Option<Encoder>, seen: seq<Option<Encoder>>)
    | FbFailed(conn: Connector, active: Option<Encoder>, seen: seq<Option<Encoder>>, crtc: Id)
    | Linked(conn: Connector, active: Option<Encoder>, seen: seq<Option<Encoder>>, dev: Dev)
  {
    /** A connector is unavailable, or its framebuffer missing, because exactly one call failed. */
    ghost function Failures(): nat
    {
      if Unavailable? || FbFailed? then 1 else 0
    }

    /** The encoder calls made for the connector. */
    ghost function Trace(): seq<Asked>
    {
      if (NoCrtc? || FbFailed? || Linked?) && |seen| <= |conn.encoders| then Calls(conn, active, seen) else []
    }
  }

  /** How many failed calls the outcomes account for. */
  ghost function FailuresOf(os: seq<Outcome>): nat
  {
    if os == [] then 0 else FailuresOf(os[..|os| - 1]) + os[|os| - 1].Failures()
  }

  lemma FailuresSnoc(os: seq<Outcome>, o: Outcome)
    ensures FailuresOf(os + [o]) == FailuresOf(os) + o.Failures()
  {
    assert (os + [o])[..|os|] == os;
  }

  /** Without failing calls, no connector is unavailable and none lacks a framebuffer. */
  lemma {:induction false} NothingFailed(os: seq<Outcome>, i: nat)
    requires FailuresOf(os) == 0 && i < |os|
    ensures !os[i].Unavailable? && !os[i].FbFailed?
  {
    var n := |os| - 1;
    if i < n {
      assert os[i] == os[..n][i];
      NothingFailed(os[..n], i);
    }
  }

  /** What an outcome says, given the devices listed before the connector's turn. */
  ghost predicate OutcomeHolds(list: seq<Dev>, crtcs: seq<Id>, o: Outcome)
  {
    match o
    case Unavailable => true
    case Unused(conn) => !conn.connected
    case NoMode(conn) => conn.connected && conn.modes == []
    case NoCrtc(conn, active, seen) =>
      conn.connected && conn.modes != [] && |seen| == |conn.encoders| && Exhausted(list, crtcs, active, seen)
    case FbFailed(conn, active, seen, crtc) =>
      conn.connected && conn.modes != [] && |seen| <= |conn.encoders| && Chosen(list, crtcs, active, seen, crtc)
    case Linked(conn, active, seen, d) =>
      && conn.connected && conn.modes != [] && |seen| <= |conn.encoders| && Chosen(list, crtcs, active, seen, d.crtc)
      && d.conn == conn.id && d.mode == conn.modes[0]
  }

  /** The outcome is about the connector with this id. */
  ghost predicate IsAbout(o: Outcome, id: Id, connectors: map<Id, Connector>)
  {
    o.Unavailable? || (id in connectors && o.conn == connectors[id])
  }

  ghost predicate AreAbout(os: seq<Outcome>, ids: seq<Id>, connectors: map<Id, Connector>)
  {
    |os| <= |ids| && forall i | 0 <= i < |os| :: IsAbout(os[i], ids[i], connectors)
  }

  /** The list that the outcomes so far have built. */
  ghost function Devices(os: seq<Outcome>): seq<Dev>
  {
    if os == [] then [] else
    var n := |os| - 1; (if os[n].Linked? then [os[n].dev] else []) + Devices(os[..n])
  }

  ghost function Traces(os: seq<Outcome>): seq<Asked>
  {
    if os == [] then [] else Traces(os[..|os| - 1]) + os[|os| - 1].Trace()
  }

  ghost predicate Unsaved(l: seq<Dev>)
  {
    forall d | d in l :: d.saved.None?
  }

  /** Every outcome is what the greedy rule gives, connector by connector. */
  ghost predicate IsGreedy(os: seq<Outcome>, crtcs: seq<Id>)
  {
    forall i | 0 <= i < |os| :: OutcomeHolds(Devices(os[..i]), crtcs, os[i])
  }

  lemma GreedyStep(os: seq<Outcome>, crtcs: seq<Id>, l: seq<Dev>, o: Outcome, l': seq<Dev>)
    requires IsGreedy(os, crtcs) && OutcomeHolds(l, crtcs, o)
    requires l == Devices(os) && l' == (if o.Linked? then [o.dev] else []) + l
    ensures IsGreedy(os + [o], crtcs) && l' == Devices(os + [o])
  {
    var all := os + [o];
    assert all[..|os|] == os;
    forall i | 0 <= i < |all|
      ensures OutcomeHolds(Devices(all[..i]), crtcs, all[i])
    {
      assert all[..i] == os[..i] || i == |os|;
      assert i == |os| || all[i] == os[i];
    }
  }

  lemma TraceStep(before: seq<Asked>, asked: seq<Asked>, os: seq<Outcome>, o: Outcome)
    requires asked == before + Traces(os)
    ensures asked + o.Trace() == before + Traces(os + [o])
  {
    TracesSnoc(os, o);
    Regroup(before, Traces(os), o.Trace());
  }

  lemma TracesSnoc(os: seq<Outcome>, o: Outcome)
    ensures Traces(os + [o]) == Traces(os) + o.Trace()
  {
    assert (os + [o])[..|os|] == os;
  }

  lemma Regroup<T>(a: seq<T>, b: seq<T>, c: seq<T>)
    ensures (a + b) + c == a + (b + c)
  {
  }

  /** Devices are only ever added. */
  lemma {:induction false} TakenStays(os: seq<Outcome>, i: nat, crtc: Id)
    requires i <= |os| && Taken(Devices(os[..i]), crtc)
    ensures Taken(Devices(os), crtc)
  {
    if i == |os| {
      assert os[..i] == os;
    } else {
      var n := |os| - 1;
      assert os[..n][..i] == os[..i];
      TakenStays(os[..n], i, crtc);
      var j :| 0 <= j < |Devices(os[..n])| && Devices(os[..n])[j].crtc == crtc;
      assert Devices(os)[j + if os[n].Linked? then 1 else 0] == Devices(os[..n])[j];
    }
  }

  /** Greedy is maximal: a connector skipped for lack of a CRTC still has none at the end, because the
      devices in the finished list own every CRTC it could use. */
  lemma SkippedMeansExhausted(os: seq<Outcome>, crtcs: seq<Id>, i: nat)
    requires IsGreedy(os, crtcs) && i < |os| && os[i].NoCrtc?
    ensures |os[i].seen| == |os[i].conn.encoders| && Exhausted(Devices(os), crtcs, os[i].active, os[i].seen)
  {
    forall c | Taken(Devices(os[..i]), c)
      ensures Taken(Devices(os), c)
    {
      TakenStays(os, i, c);
    }
    assert OutcomeHolds(Devices(os[..i]), crtcs, os[i]);
  }

  /** Every listed device comes from a connector in use, shows its first mode, and has a CRTC that an
      encoder of the connector allows and that no device listed earlier has. */
  lemma {:induction false} ListedIsCompatible(os: seq<Outcome>, crtcs: seq<Id>, d: Dev) returns (i: nat)
    requires IsGreedy(os, crtcs) && d in Devices(os)
    ensures i < |os| && os[i].Linked? && os[i].dev == d && !Taken(Devices(os[..i]), d.crtc)
    ensures os[i].conn.connected && os[i].conn.modes != [] && d.conn == os[i].conn.id && d.mode == os[i].conn.modes[0]
    ensures Compatible(crtcs, os[i].active, os[i].seen, d.crtc)
  {
    var n := |os| - 1;
    if os[n].Linked? && os[n].dev == d {
      i := n;
      assert OutcomeHolds(Devices(os[..n]), crtcs, os[n]);
      ChosenIsCompatible(Devices(os[..n]), crtcs, os[n].active, os[n].seen, d.crtc);
    } else {
      assert forall k | 0 <= k < n :: os[..n][..k] == os[..k] && os[..n][k] == os[k];
      i := ListedIsCompatible(os[..n], crtcs, d);
    }
  }

  // ---------------------------------------------------------------------------
  // The ledger: what the listed devices own
  // ---------------------------------------------------------------------------

  ghost function Handles(l: seq<Dev>): set<nat> { set d | d in l :: d.handle }
  ghost function Fbs(l: seq<Dev>): set<nat> { set d | d in l :: d.fb }
  ghost function Maps(l: seq<Dev>): set<nat> { set d | d in l :: d.map_ }
  ghost function Selves(l: seq<Dev>): set<nat> { set d | d in l :: d.self }
  ghost function Saves(l: seq<Dev>): set<nat> { set d | d in l && d.saved.Some? :: d.saved.value.token }

  /** No two listed devices share a CRTC, a handle, a framebuffer, a mapping or an allocation. */
  ghost predicate Apart(l: seq<Dev>)
  {
    forall i, j | 0 <= i < j < |l| ::
      && l[i].crtc != l[j].crtc && l[i].handle != l[j].handle && l[i].fb != l[j].fb
      && l[i].map_ != l[j].map_ && l[i].self != l[j].self
      && (l[i].saved.Some? && l[j].saved.Some? ==> l[i].saved.value.token != l[j].saved.value.token)
  }

  /** What is live is what was live before, `b`, and what the list owns, and these do not overlap. */
  ghost predicate Ledger(b: KernelState, k: KernelState, l: seq<Dev>)
  {
    && Apart(l)
    && k.handles == b.handles + Handles(l) && b.handles !! Handles(l)
    && k.fbs == b.fbs + Fbs(l) && b.fbs !! Fbs(l)
    && k.maps == b.maps + Maps(l) && b.maps !! Maps(l)
    && k.tokens == b.tokens + Selves(l) + Saves(l) && b.tokens !! Selves(l) !! Saves(l)
  }

  /** A new device: its CRTC is nobody else's, and its buffer, framebuffer and mapping are new. */
  ghost predicate IsSetUp(b: KernelState, k: KernelState, list: seq<Dev>, d: Dev)
  {
    && d.saved.None? && !Taken(list, d.crtc) && d.crtc in b.crtcs
    && d.handle !in b.handles && d.fb !in b.fbs && d.map_ !in b.maps
    && (forall c | c in b.crtcs :: b.crtcs[c].buffer != d.fb)
    && k == b.(handles := b.handles + {d.handle}, fbs := b.fbs + {d.fb}, maps := b.maps + {d.map_},
               tokens := k.tokens, next := k.next)
  }

  /** The listed CRTCs exist, and no CRTC showed a listed framebuffer before. */
  ghost predicate Fresh(b: KernelState, l: seq<Dev>)
  {
    && (forall d | d in l :: d.crtc in b.crtcs)
    && (forall d, c | d in l && c in b.crtcs :: b.crtcs[c].buffer != d.fb)
  }

  lemma OwnedByHead(d: Dev, t: seq<Dev>)
    ensures Handles([d] + t) == {d.handle} + Handles(t) && Fbs([d] + t) == {d.fb} + Fbs(t)
    ensures Maps([d] + t) == {d.map_} + Maps(t) && Selves([d] + t) == {d.self} + Selves(t)
    ensures Saves([d] + t) == (if d.saved.Some? then {d.saved.value.token} else {}) + Saves(t)
  {
    assert forall x :: x in [d] + t <==> x == d || x in t;
  }

  lemma LedgerCons(b: KernelState, k: KernelState, d: Dev, l: seq<Dev>, k': KernelState)
    requires Ledger(b, k, l) && d.saved.None? && !Taken(l, d.crtc)
    requires d.handle !in k.handles && d.fb !in k.fbs && d.map_ !in k.maps && d.self !in k.tokens
    requires k'.handles == k.handles + {d.handle} && k'.fbs == k.fbs + {d.fb} && k'.maps == k.maps + {d.map_}
    requires k'.tokens == k.tokens + {d.self}
    ensures Ledger(b, k', [d] + l)
  {
    var m := [d] + l;
    OwnedByHead(d, l);
    forall i, j | 0 <= i < j < |m|
      ensures m[i].crtc != m[j].crtc && m[i].handle != m[j].handle && m[i].fb != m[j].fb
      ensures m[i].map_ != m[j].map_ && m[i].self != m[j].self
      ensures m[i].saved.Some? && m[j].saved.Some? ==> m[i].saved.value.token != m[j].saved.value.token
    {
      assert m[j] == l[j - 1] && m[j] in l;
      if i > 0 {
        assert m[i] == l[i - 1];
      }
    }
  }

  ghost function WithSaved(l: seq<Dev>, i: nat, saved: Option<Owned<Crtc>>): seq<Dev>
    requires i < |l|
  {
    l[i := l[i].(saved := saved)]
  }

  /** Saving a CRTC gives a listed device one more allocation. */
  lemma LedgerSave(b: KernelState, k: KernelState, l: seq<Dev>, i: nat, saved: Owned<Crtc>, k': KernelState)
    requires Ledger(b, k, l) && i < |l| && l[i].saved.None? && saved.token !in k.tokens
    requires k' == k.(tokens := k.tokens + {saved.token}, next := k'.next)
    ensures Ledger(b, k', WithSaved(l, i, Some(saved)))
  {
    OwnedStays(l, i, saved);
    SavesStep(l, i, saved);
    ApartSave(l, i, saved);
  }

  lemma OwnedStays(l: seq<Dev>, i: nat, saved: Owned<Crtc>)
    requires i < |l|
    ensures var m := WithSaved(l, i, Some(saved));
            Handles(m) == Handles(l) && Fbs(m) == Fbs(l) && Maps(m) == Maps(l) && Selves(m) == Selves(l)
  {
    var m := WithSaved(l, i, Some(saved));
    assert forall j | 0 <= j < |l| :: m[j] == l[j].(saved := m[j].saved) && l[j] in l && m[j] in m;
    forall x
      ensures x in Handles(m) <==> x in Handles(l)
      ensures x in Fbs(m) <==> x in Fbs(l)
      ensures x in Maps(m) <==> x in Maps(l)
      ensures x in Selves(m) <==> x in Selves(l)
    {
    }
  }

  lemma ApartSave(l: seq<Dev>, i: nat, saved: Owned<Crtc>)
    requires Apart(l) && i < |l| && saved.token !in Saves(l)
    ensures Apart(WithSaved(l, i, Some(saved)))
  {
    var m := WithSaved(l, i, Some(saved));
    assert forall j | 0 <= j < |l| && l[j].saved.Some? :: l[j] in l && l[j].saved.value.token in Saves(l);
    assert forall j | 0 <= j < |l| :: m[j] == l[j].(saved := m[j].saved);
  }

  lemma SavesStep(l: seq<Dev>, i: nat, saved: Owned<Crtc>)
    requires i < |l| && l[i].saved.None?
    ensures Saves(WithSaved(l, i, Some(saved))) == Saves(l) + {saved.token}
  {
    var m := WithSaved(l, i, Some(saved));
    forall t | t in Saves(l)
      ensures t in Saves(m)
    {
      var d :| d in l && d.saved.Some? && d.saved.value.token == t;
      var j :| 0 <= j < |l| && l[j] == d;
      assert m[j] == d;
    }
    assert m[i] in m;
  }

  /** Everything the head of the list owns is released. */
  lemma LedgerTail(b: KernelState, k: KernelState, d: Dev, t: seq<Dev>, k': KernelState)
    requires Ledger(b, k, [d] + t) && Fresh(b, [d] + t) && d.saved.Some?
    requires k'.handles == k.handles - {d.handle} && k'.fbs == k.fbs - {d.fb} && k'.maps == k.maps - {d.map_}
    requires k'.tokens == k.tokens - {d.saved.value.token} - {d.self}
    ensures Ledger(b, k', t) && Fresh(b, t)
  {
    OwnedByHead(d, t);
    HeadIsApart(d, t);
    assert forall x | x in t :: x in [d] + t;
  }

  lemma HeadDiffers(d: Dev, t: seq<Dev>, e: Dev)
    requires Apart([d] + t) && e in t
    ensures d.crtc != e.crtc && d.handle != e.handle && d.fb != e.fb && d.map_ != e.map_ && d.self != e.self
    ensures d.saved.Some? && e.saved.Some? ==> d.saved.value.token != e.saved.value.token
  {
    var j :| 0 <= j < |t| && t[j] == e;
    assert ([d] + t)[0] == d && ([d] + t)[j + 1] == e;
  }

  lemma HeadIsApart(d: Dev, t: seq<Dev>)
    requires Apart([d] + t)
    ensures Apart(t)
    ensures d.handle !in Handles(t) && d.fb !in Fbs(t) && d.map_ !in Maps(t) && d.self !in Selves(t)
    ensures d.saved.Some? ==> d.saved.value.token !in Saves(t)
  {
    assert ([d] + t)[1..] == t;
    forall e | e in t
      ensures d.handle != e.handle && d.fb != e.fb && d.map_ != e.map_ && d.self != e.self
      ensures d.saved.Some? && e.saved.Some? ==> d.saved.value.token != e.saved.value.token
    {
      HeadDiffers(d, t, e);
    }
  }

  /** An allocation made before is freed after. */
  lemma LedgerWithout(b: KernelState, k: KernelState, l: seq<Dev>, token: nat)
    requires Ledger(b, k, l) && token in b.tokens
    ensures Ledger(b.(tokens := b.tokens - {token}), k.(tokens := k.tokens - {token}), l)
  {
  }

  // ---------------------------------------------------------------------------
  // What the CRTCs show
  // ---------------------------------------------------------------------------

  /** `shown`: the CRTCs a device was put on. `back`: those put back by a later restoring call. Listed
      CRTCs are still waiting to be restored; a CRTC whose device is gone was put back, or is dark. */
  ghost predicate Shows(orig: map<Id, Crtc>, now: map<Id, Crtc>, l: seq<Dev>, shown: set<Id>, back: set<Id>)
  {
    && now.Keys == orig.Keys
    && (forall d | d in l && d.crtc in orig ::
          now[d.crtc] == (if d.crtc in shown then Picture(d) else orig[d.crtc]) && d.crtc !in back)
    && (forall c | c in orig && !Taken(l, c) :: now[c] == if c in shown && c !in back then OFF else orig[c])
  }

  /** What a CRTC is to show while a device uses it. */
  function Picture(d: Dev): Crtc
  {
    Crtc(d.fb, 0, 0, d.mode.timing)
  }

  function Pictures(devs: seq<Dev>): seq<Crtc>
  {
    seq(|devs|, i requires 0 <= i < |devs| => Picture(devs[i]))
  }

  /** What the CRTCs of the devices showed in the beginning. */
  function Originals(orig: map<Id, Crtc>, devs: seq<Dev>): seq<Crtc>
  {
    seq(|devs|, i requires 0 <= i < |devs| => if devs[i].crtc in orig then orig[devs[i].crtc] else OFF)
  }

  /** The calls that set the CRTCs of the first devices to these pictures, with the kernel's answers. */
  function SetCalls(devs: seq<Dev>, pictures: seq<Crtc>, oks: seq<bool>): seq<SetCall>
    requires |oks| <= |devs| == |pictures|
  {
    seq(|oks|, i requires 0 <= i < |oks| => SetCall(devs[i].crtc, devs[i].conn, pictures[i], oks[i]))
  }

  lemma NextCall(before: seq<SetCall>, devs: seq<Dev>, pictures: seq<Crtc>, oks: seq<bool>, ok: bool)
    requires |oks| < |devs| == |pictures|
    ensures before + SetCalls(devs, pictures, oks) + [SetCall(devs[|oks|].crtc, devs[|oks|].conn, pictures[|oks|], ok)]
            == before + SetCalls(devs, pictures, oks + [ok])
  {
    assert SetCalls(devs, pictures, oks + [ok])
           == SetCalls(devs, pictures, oks) + [SetCall(devs[|oks|].crtc, devs[|oks|].conn, pictures[|oks|], ok)];
  }

  /** The CRTCs for which the kernel agreed. */
  ghost function Agreed(devs: seq<Dev>, oks: seq<bool>): set<Id>
    requires |oks| <= |devs|
  {
    set i | 0 <= i < |oks| && oks[i] :: devs[i].crtc
  }

  lemma NextAgreed(devs: seq<Dev>, oks: seq<bool>, ok: bool)
    requires |oks| < |devs|
    ensures Agreed(devs, oks + [ok]) == if ok then Agreed(devs, oks) + {devs[|oks|].crtc} else Agreed(devs, oks)
  {
    var more := oks + [ok];
    assert forall i | 0 <= i < |oks| :: more[i] == oks[i];
    assert ok ==> more[|oks|] && devs[|oks|].crtc in Agreed(devs, more);
    forall c | c in Agreed(devs, oks)
      ensures c in Agreed(devs, more)
    {
      var i :| 0 <= i < |oks| && oks[i] && devs[i].crtc == c;
      assert more[i];
    }
  }

  /** The CRTCs that were set for a device and not set back. */
  ghost function Dark(devs: seq<Dev>, shows: seq<bool>, backs: seq<bool>): set<Id>
    requires |shows| == |backs| == |devs|
  {
    set i | 0 <= i < |devs| && shows[i] && !backs[i] :: devs[i].crtc
  }

  /** The CRTCs in `dark` are off and the others are as they were. */
  ghost function Final(orig: map<Id, Crtc>, dark: set<Id>): map<Id, Crtc>
  {
    map c | c in orig :: if c in dark then OFF else orig[c]
  }

  /** The exact condition for the original picture, in the kernel's answers: a CRTC that was set and
      could not be set back was off before. */
  lemma RestoredIff(orig: map<Id, Crtc>, devs: seq<Dev>, shows: seq<bool>, backs: seq<bool>)
    requires |shows| == |backs| == |devs| && forall i | 0 <= i < |devs| :: devs[i].crtc in orig
    ensures Final(orig, Dark(devs, shows, backs)) == orig
            <==> forall i | 0 <= i < |devs| && shows[i] && !backs[i] :: orig[devs[i].crtc] == OFF
  {
    var dark := Dark(devs, shows, backs);
    if Final(orig, dark) == orig {
      forall i | 0 <= i < |devs| && shows[i] && !backs[i]
        ensures orig[devs[i].crtc] == OFF
      {
        assert devs[i].crtc in dark;
        assert Final(orig, dark)[devs[i].crtc] == OFF;
      }
    }
  }

  lemma ShowsSaved(orig: map<Id, Crtc>, now: map<Id, Crtc>, l: seq<Dev>, shown: set<Id>, i: nat,
                   saved: Option<Owned<Crtc>>)
    requires Shows(orig, now, l, shown, {}) && i < |l|
    ensures Shows(orig, now, WithSaved(l, i, saved), shown, {})
  {
    var m := WithSaved(l, i, saved);
    assert forall j | 0 <= j < |l| :: l[j] in l && m[j] == l[j].(saved := m[j].saved);
    forall c | Taken(l, c)
      ensures Taken(m, c)
    {
      var j :| 0 <= j < |l| && l[j].crtc == c;
      assert m[j].crtc == c;
    }
  }

  lemma ShowsSet(orig: map<Id, Crtc>, now: map<Id, Crtc>, l: seq<Dev>, shown: set<Id>, i: nat)
    requires Shows(orig, now, l, shown, {}) && Apart(l) && i < |l| && l[i].crtc in orig
    ensures Shows(orig, now[l[i].crtc := Picture(l[i])], l, shown + {l[i].crtc}, {})
  {
    assert Taken(l, l[i].crtc);
    assert forall j | 0 <= j < |l| :: l[j] in l;
  }

  lemma ShowsTail(orig: map<Id, Crtc>, now: map<Id, Crtc>, d: Dev, t: seq<Dev>, shown: set<Id>, back: set<Id>, ok: bool)
    requires Shows(orig, now, [d] + t, shown, back) && Apart([d] + t) && d.crtc in orig && d.fb > 0
    requires forall c | c in orig :: orig[c].buffer != d.fb
    ensures Shows(orig, WithoutFb(if ok then now[d.crtc := orig[d.crtc]] else now, d.fb), t, shown,
                  if ok then back + {d.crtc} else back)
  {
    var now' := if ok then now[d.crtc := orig[d.crtc]] else now;
    assert d in [d] + t;
    forall e | e in t && e.crtc in orig
      ensures e.crtc !in (if ok then back + {d.crtc} else back)
      ensures WithoutFb(now', d.fb)[e.crtc] == if e.crtc in shown then Picture(e) else orig[e.crtc]
    {
      assert e in [d] + t;
      HeadDiffers(d, t, e);
    }
    forall c | c in orig && !Taken(t, c)
      ensures WithoutFb(now', d.fb)[c]
              == if c in shown && c !in (if ok then back + {d.crtc} else back) then OFF else orig[c]
    {
      if c != d.crtc {
        NotInHead(d, t, c);
      }
    }
  }

  lemma NotInHead(d: Dev, t: seq<Dev>, c: Id)
    requires !Taken(t, c) && c != d.crtc
    ensures !Taken([d] + t, c)
  {
    var l := [d] + t;
    assert l[0] == d && forall j | 0 < j < |l| :: l[j] == t[j - 1];
  }

  /** The same devices, whether saved or not. */
  ghost predicate SameDevices(l: seq<Dev>, m: seq<Dev>)
  {
    |l| == |m| && forall i | 0 <= i < |l| :: m[i] == l[i].(saved := m[i].saved)
  }

  ghost predicate AllSaved(l: seq<Dev>)
  {
    forall d | d in l :: d.saved.Some?
  }

  /** What was saved is what the CRTC showed in the beginning. */
  ghost predicate SavedOriginals(orig: map<Id, Crtc>, l: seq<Dev>)
  {
    forall d | d in l && d.saved.Some? :: d.crtc in orig && d.saved.value.value == orig[d.crtc]
  }

  /** What holds from preparation to the end of cleanup. `b` is the kernel's state at the start. */
  ghost predicate Underway(b: KernelState, k: KernelState, l: seq<Dev>, shown: set<Id>, back: set<Id>)
  {
    && b.next <= k.next && Ledger(b, k, l) && Fresh(b, l)
    && SavedOriginals(b.crtcs, l) && Shows(b.crtcs, k.crtcs, l, shown, back)
  }

  /** The part of the list from `i` on has been neither saved nor shown. */
  ghost predicate Untouched(l: seq<Dev>, i: nat, shown: set<Id>)
  {
    forall j | i <= j < |l| :: l[j].saved.None? && l[j].crtc !in shown
  }

  /** The first `|shows|` devices have had their turn. `failed`: saving one of them failed. */
  ghost predicate Progress(was: seq<Dev>, l: seq<Dev>, shows: seq<bool>, shown: set<Id>, failed: bool)
  {
    && |shows| <= |l| && SameDevices(was, l) && Untouched(l, |shows|, shown) && shown == Agreed(was, shows)
    && (failed <==> exists j :: 0 <= j < |shows| && l[j].saved.None?)
  }

  lemma ListedIsLive(b: KernelState, k: KernelState, l: seq<Dev>, i: nat, shown: set<Id>, back: set<Id>)
    requires Underway(b, k, l, shown, back) && b.Valid() && k.Valid() && i < |l|
    ensures l[i].crtc in k.crtcs && l[i].fb in k.fbs && l[i].fb > 0 && l[i].handle in k.handles && l[i].map_ in k.maps
    ensures l[i].self in k.tokens
    ensures l[i].saved.Some? ==> l[i].saved.value.token in k.tokens && l[i].saved.value.token != l[i].self
                                 && l[i].saved.value.value.buffer < k.next
  {
    var d := l[i];
    assert d in l;
    assert d.handle in Handles(l) && d.fb in Fbs(l) && d.map_ in Maps(l) && d.self in Selves(l);
    if d.saved.Some? {
      assert d.saved.value.token in Saves(l);
    }
  }

  lemma StartsUnderway(b: KernelState, k: KernelState, l: seq<Dev>)
    requires Ledger(b, k, l) && Fresh(b, l) && Unsaved(l) && k.crtcs == b.crtcs && b.next <= k.next
    ensures Underway(b, k, l, {}, {})
  {
  }

  lemma SaveStep(b: KernelState, k: KernelState, l: seq<Dev>, shown: set<Id>, i: nat, saved: Option<Owned<Crtc>>,
                 k': KernelState)
    requires Underway(b, k, l, shown, {}) && i < |l| && Untouched(l, i, shown) && k.next <= k'.next
    requires l[i].crtc in k.crtcs
    requires saved.None? ==> k' == k
    requires saved.Some? ==> saved.value.value == k.crtcs[l[i].crtc] && saved.value.token !in k.tokens
                             && k' == k.(tokens := k.tokens + {saved.value.token}, next := k'.next)
    ensures Underway(b, k', WithSaved(l, i, saved), shown, {})
  {
    if saved.None? {
      assert l[i].(saved := saved) == l[i];
      assert WithSaved(l, i, saved) == l;
    } else {
      LedgerSave(b, k, l, i, saved.value, k');
      ShowsSaved(b.crtcs, k.crtcs, l, shown, i, saved);
      OriginalsSave(b, l, i, saved);
    }
  }

  lemma OriginalsSave(b: KernelState, l: seq<Dev>, i: nat, saved: Option<Owned<Crtc>>)
    requires Fresh(b, l) && SavedOriginals(b.crtcs, l) && i < |l|
    requires saved.Some? ==> l[i].crtc in b.crtcs && saved.value.value == b.crtcs[l[i].crtc]
    ensures Fresh(b, WithSaved(l, i, saved)) && SavedOriginals(b.crtcs, WithSaved(l, i, saved))
  {
    var m := WithSaved(l, i, saved);
    assert forall d | d in m :: d in l || d == m[i];
    assert m[i] == l[i].(saved := saved) && l[i] in l;
  }

  lemma UntouchedStep(was: seq<Dev>, l: seq<Dev>, i: nat, shown: set<Id>, saved: Option<Owned<Crtc>>)
    requires SameDevices(was, l) && Untouched(l, i, shown) && i < |l| && Apart(l)
    ensures SameDevices(was, WithSaved(l, i, saved))
    ensures Untouched(WithSaved(l, i, saved), i + 1, shown)
    ensures Untouched(WithSaved(l, i, saved), i + 1, shown + {l[i].crtc})
  {
  }

  lemma ProgressStep(was: seq<Dev>, l: seq<Dev>, shows: seq<bool>, shown: set<Id>, failed: bool,
                     saved: Option<Owned<Crtc>>, ok: bool)
    requires Progress(was, l, shows, shown, failed) && |shows| < |l| && Apart(l)
    ensures Progress(was, WithSaved(l, |shows|, saved), shows + [ok],
                     if ok then shown + {l[|shows|].crtc} else shown, failed || saved.None?)
  {
    var i := |shows|;
    var m := WithSaved(l, i, saved);
    UntouchedStep(was, l, i, shown, saved);
    NextAgreed(was, shows, ok);
    assert m[i].saved == saved && forall j | 0 <= j < i :: m[j] == l[j];
  }

  lemma SetStep(b: KernelState, k: KernelState, l: seq<Dev>, shown: set<Id>, i: nat, k': KernelState)
    requires Underway(b, k, l, shown, {}) && i < |l|
    requires k' == k.(crtcs := k.crtcs[l[i].crtc := Picture(l[i])], next := k'.next)
    requires k.next <= k'.next
    ensures Underway(b, k', l, shown + {l[i].crtc}, {})
  {
    assert l[i] in l;
    ShowsSet(b.crtcs, k.crtcs, l, shown, i);
  }

  lemma CleanStep(b: KernelState, k: KernelState, d: Dev, t: seq<Dev>, shown: set<Id>, back: set<Id>, ok: bool,
                  k': KernelState)
    requires Underway(b, k, [d] + t, shown, back) && d.saved.Some? && d.fb > 0 && k.next <= k'.next
    requires k'.crtcs == WithoutFb(if ok then k.crtcs[d.crtc := d.saved.value.value] else k.crtcs, d.fb)
    requires k'.handles == k.handles - {d.handle} && k'.fbs == k.fbs - {d.fb} && k'.maps == k.maps - {d.map_}
    requires k'.tokens == k.tokens - {d.saved.value.token} - {d.self}
    ensures Underway(b, k', t, shown, if ok then back + {d.crtc} else back)
  {
    assert d in [d] + t && forall x | x in t :: x in [d] + t;
    ShowsTail(b.crtcs, k.crtcs, d, t, shown, back, ok);
    LedgerTail(b, k, d, t, k');
  }

  /** After cleaning up `|backs|` devices, all of them saved, the list is what is left. */
  ghost predicate Cleaned(devs: seq<Dev>, l: seq<Dev>, backs: seq<bool>, back: set<Id>)
  {
    && |backs| <= |devs| && l == devs[|backs|..] && back == Agreed(devs, backs)
    && (forall i | 0 <= i < |backs| :: devs[i].saved.Some?)
  }

  lemma CleanedStep(devs: seq<Dev>, l: seq<Dev>, backs: seq<bool>, back: set<Id>, ok: bool)
    requires Cleaned(devs, l, backs, back) && l != [] && l[0].saved.Some?
    ensures Cleaned(devs, l[1..], backs + [ok], if ok then back + {l[0].crtc} else back)
    ensures l[0] == devs[|backs|]
  {
    NextAgreed(devs, backs, ok);
  }

  /** The picture that cleanup sends back is the one from before the program. */
  lemma SavedIsOriginal(orig: map<Id, Crtc>, l: seq<Dev>, devs: seq<Dev>, backs: seq<bool>, back: set<Id>)
    requires Cleaned(devs, l, backs, back) && SavedOriginals(orig, l) && l != [] && l[0].saved.Some?
    ensures l[0] == devs[|backs|] && l[0].saved.value.value == Originals(orig, devs)[|backs|]
  {
    assert l[0] in l;
  }

  lemma HeadAndTail(l: seq<Dev>)
    requires l != []
    ensures l == [l[0]] + l[1..]
  {
  }

  lemma CleanedCrash(devs: seq<Dev>, l: seq<Dev>, backs: seq<bool>, back: set<Id>)
    requires Cleaned(devs, l, backs, back)
    ensures l != [] && l[0].saved.None? ==> !AllSaved(devs)
    ensures l == [] ==> AllSaved(devs) && |backs| == |devs|
  {
    if l != [] {
      assert l[0] == devs[|backs|];
    }
  }

  lemma CleanedUp(b: KernelState, k: KernelState, devs: seq<Dev>, shows: seq<bool>, backs: seq<bool>)
    requires |shows| == |backs| == |devs| && Apart(devs)
    requires Underway(b, k, [], Agreed(devs, shows), Agreed(devs, backs))
    ensures k == b.(crtcs := Final(b.crtcs, Dark(devs, shows, backs)), next := k.next)
  {
    var shown, back, dark := Agreed(devs, shows), Agreed(devs, backs), Dark(devs, shows, backs);
    forall i | 0 <= i < |devs|
      ensures devs[i].crtc in shown <==> shows[i]
      ensures devs[i].crtc in back <==> backs[i]
      ensures devs[i].crtc in dark <==> shows[i] && !backs[i]
    {
    }
    forall c: Id
      ensures c in dark <==> c in shown && c !in back
    {
      if c in shown {
        var i :| 0 <= i < |devs| && shows[i] && devs[i].crtc == c;
      }
    }
  }

  /** A device is on the screen exactly if the kernel agreed; otherwise its CRTC is as it was. */
  ghost predicate AreShown(orig: map<Id, Crtc>, devs: seq<Dev>, shows: seq<bool>, during: map<Id, Crtc>)
  {
    && |shows| == |devs| && during.Keys == orig.Keys
    && (forall i | 0 <= i < |devs| :: devs[i].crtc in orig
          && during[devs[i].crtc] == if shows[i] then Picture(devs[i]) else orig[devs[i].crtc])
    && (forall c | c in orig && !Taken(devs, c) :: during[c] == orig[c])
  }

  /** Whether devices are saved makes no difference to the calls. */
  lemma SameCalls(orig: map<Id, Crtc>, was: seq<Dev>, l: seq<Dev>)
    requires SameDevices(was, l)
    ensures Originals(orig, was) == Originals(orig, l)
    ensures forall oks | |oks| <= |l| ::
              SetCalls(l, Originals(orig, l), oks) == SetCalls(was, Originals(orig, was), oks)
    ensures forall shows, backs | |shows| == |backs| == |l| :: Dark(l, shows, backs) == Dark(was, shows, backs)
  {
  }

  lemma AgreedOnes(devs: seq<Dev>, oks: seq<bool>, i: nat)
    requires i < |oks| == |devs| && Apart(devs)
    ensures devs[i].crtc in Agreed(devs, oks) <==> oks[i]
  {
  }

  lemma SameAgreed(was: seq<Dev>, l: seq<Dev>, oks: seq<bool>)
    requires SameDevices(was, l) && |oks| <= |l|
    ensures Agreed(was, oks) == Agreed(l, oks)
  {
    assert forall i | 0 <= i < |l| :: l[i].crtc == was[i].crtc;
  }

  lemma ProgressIsShown(b: KernelState, k: KernelState, was: seq<Dev>, l: seq<Dev>, shows: seq<bool>, shown: set<Id>,
                        failed: bool)
    requires Underway(b, k, l, shown, {}) && Progress(was, l, shows, shown, failed) && |shows| == |l|
    ensures AreShown(b.crtcs, was, shows, k.crtcs) && (failed <==> !AllSaved(l)) && shown == Agreed(l, shows)
  {
    SameAgreed(was, l, shows);
    ScreenOf(b.crtcs, k.crtcs, was, l, shows);
    if !AllSaved(l) {
      var d :| d in l && d.saved.None?;
      var j :| 0 <= j < |l| && l[j] == d;
    }
    assert failed ==> exists j :: 0 <= j < |l| && l[j].saved.None? && l[j] in l;
  }

  lemma ScreenOf(orig: map<Id, Crtc>, now: map<Id, Crtc>, was: seq<Dev>, l: seq<Dev>, shows: seq<bool>)
    requires |shows| == |l| && SameDevices(was, l) && Apart(l) && Shows(orig, now, l, Agreed(l, shows), {})
    requires forall d | d in l :: d.crtc in orig
    ensures AreShown(orig, was, shows, now)
  {
    forall i | 0 <= i < |was|
      ensures was[i].crtc in orig
      ensures now[was[i].crtc] == if shows[i] then Picture(was[i]) else orig[was[i].crtc]
    {
      AgreedOnes(l, shows, i);
      assert l[i] in l;
    }
    forall c: Id | Taken(l, c)
      ensures Taken(was, c)
    {
      var i :| 0 <= i < |l| && l[i].crtc == c;
      assert was[i].crtc == c;
    }
    assert forall c | c in Agreed(l, shows) :: Taken(l, c);
  }

  // ---------------------------------------------------------------------------
  // The program
  // ---------------------------------------------------------------------------

  class Program {
    const kernel: Kernel
    var list: seq<Dev>   // the global `modeset_list`, head first

    constructor (kernel: Kernel)
      ensures this.kernel == kernel && list == []
    {
      this.kernel := kernel;
      list := [];
    }

    /** The inner search of the allocator: the CRTC as an `int32_t`, or -1 when a device has it. */
    method Claim(crtc: Id) returns (c: int)
      ensures c >= 0 <==> Usable(list, crtc)
      ensures c >= 0 ==> c == crtc
    {
      c := AsInt32(crtc);
      var i := 0;
      while i < |list|
        invariant 0 <= i <= |list| && c == AsInt32(crtc) && forall j | 0 <= j < i :: list[j].crtc != crtc
      {
        if list[i].crtc == crtc {
          return -1;
        }
        i := i + 1;
      }
    }

    /** The encoder the connector is bound to, and its CRTC if that is usable, or -1. */
    method TryActive(conn: Connector) returns (found: int, ghost active: Option<Encoder>)
      requires kernel.Sane()
      modifies kernel`k, kernel`asked
      ensures kernel.Sane() && kernel.k == old(kernel.k).(next := kernel.k.next) && old(kernel.k.next) <= kernel.k.next
      ensures IsRetrieved(conn.encoderId, active) && (active.Some? ==> conn.encoderId != 0)
      ensures found >= 0 ==>
                && found < 0x1_0000_0000 && Offers(active, found) && Usable(list, found) && found in kernel.k.crtcs
      ensures found < 0 ==> forall c | Offers(active, c) :: !Usable(list, c)
      ensures kernel.asked == old(kernel.asked) + Calls(conn, active, [])
    {
      active, found := None, -1;
      if conn.encoderId != 0 {
        var enc := kernel.GetEncoder(conn.encoderId);
        if enc.Some? {
          active := Some(enc.value.value);
          if enc.value.value.crtcId != 0 {
            found := Claim(enc.value.value.crtcId);
          }
          kernel.Free(enc.value.token);
        }
      }
    }

    /** What a call of drmModeGetEncoder can return for an id. */
    ghost predicate IsRetrieved(id: Id, enc: Option<Encoder>)
    {
      enc.Some? ==> id in kernel.encoders && enc.value == kernel.encoders[id]
    }

    /** `modeset_find_crtc`. `active` and `seen` record which encoders the kernel let it retrieve. */
    method FindCrtc(conn: Connector)
      returns (ret: int, crtc: Id, ghost active: Option<Encoder>, ghost seen: seq<Option<Encoder>>)
      requires kernel.Sane()
      modifies kernel`k, kernel`asked
      ensures kernel.Sane() && kernel.k == old(kernel.k).(next := kernel.k.next) && old(kernel.k.next) <= kernel.k.next
      ensures ret == 0 || ret == -ENOENT
      ensures ret == 0 ==> Chosen(list, kernel.resources.crtcs, active, seen, crtc) && crtc in kernel.k.crtcs
      ensures ret != 0 ==> Exhausted(list, kernel.resources.crtcs, active, seen) && |seen| == |conn.encoders|
      ensures IsRetrieved(conn.encoderId, active)
      ensures |seen| <= |conn.encoders| && AreRetrieved(conn, seen)
      ensures kernel.asked == old(kernel.asked) + Calls(conn, active, seen)
    {
      var found: int;
      seen, crtc := [], 0;
      found, active := TryActive(conn);
      if found < 0 {
        found, seen := TryOthers(conn);
      }
      if found >= 0 {
        return 0, found, active, seen;
      }
      return -ENOENT, 0, active, seen;
    }

    /** The loop over the connector's encoders: the first usable CRTC of the first that has one, or -1. */
    method TryOthers(conn: Connector) returns (found: int, ghost seen: seq<Option<Encoder>>)
      requires kernel.Sane()
      modifies kernel`k, kernel`asked
      ensures kernel.Sane() && kernel.k == old(kernel.k).(next := kernel.k.next) && old(kernel.k.next) <= kernel.k.next
      ensures |seen| <= |conn.encoders| && AreRetrieved(conn, seen)
      ensures kernel.asked == old(kernel.asked) + Zip(conn.encoders, seen)
      ensures found < 0 ==> NoneUsable(list, kernel.resources.crtcs, seen) && |seen| == |conn.encoders|
      ensures found >= 0 ==> found < 0x1_0000_0000 && found in kernel.k.crtcs && Usable(list, found)
                             && IsFirstFit(list, kernel.resources.crtcs, seen, found)
    {
      seen := [];
      var i := 0;
      while i < |conn.encoders|
        invariant 0 <= i == |seen| <= |conn.encoders|
        invariant kernel.Sane() && kernel.k == old(kernel.k).(next := kernel.k.next)
        invariant old(kernel.k.next) <= kernel.k.next
        invariant kernel.asked == old(kernel.asked) + Zip(conn.encoders, seen)
        invariant NoneUsable(list, kernel.resources.crtcs, seen) && AreRetrieved(conn, seen)
      {
        ghost var enc;
        found, enc := TryEncoder(conn.encoders[i]);
        seen := seen + [enc];
        assert seen[..|seen| - 1] == seen[..i];
        if found >= 0 {
          return;
        }
        i := i + 1;
      }
      found := -1;
    }

    ghost predicate AreRetrieved(conn: Connector, seen: seq<Option<Encoder>>)
    {
      |seen| <= |conn.encoders| && forall i | 0 <= i < |seen| :: IsRetrieved(conn.encoders[i], seen[i])
    }

    /** One encoder of the connector: the first usable CRTC it allows, or -1. */
    method TryEncoder(id: Id) returns (found: int, ghost seen: Option<Encoder>)
      requires kernel.Sane()
      modifies kernel`k, kernel`asked
      ensures kernel.Sane() && kernel.k == old(kernel.k).(next := kernel.k.next) && old(kernel.k.next) <= kernel.k.next
      ensures IsRetrieved(id, seen)
      ensures found < 0 ==> NoneUsableBelow(list, kernel.resources.crtcs, seen, |kernel.resources.crtcs|)
      ensures found >= 0 ==> found < 0x1_0000_0000 && found in kernel.k.crtcs && Usable(list, found) && exists j ::
                0 <= j < |kernel.resources.crtcs| && kernel.resources.crtcs[j] == found && Fits(seen, j)
                && NoneUsableBelow(list, kernel.resources.crtcs, seen, j)
      ensures kernel.asked == old(kernel.asked) + [Asked(id, seen)]
    {
      var enc := kernel.GetEncoder(id);
      if enc.None? {
        return -1, None;
      }
      seen := Some(enc.value.value);
      ghost var at;
      found, at := ScanCrtcs(enc.value.value);
      kernel.Free(enc.value.token);
    }

    /** The loop over all CRTCs for one encoder: the first usable one the encoder allows, or -1. */
    method ScanCrtcs(enc: Encoder) returns (found: int, ghost at: nat)
      requires kernel.Sane()
      ensures found < 0 ==> NoneUsableBelow(list, kernel.resources.crtcs, Some(enc), |kernel.resources.crtcs|)
      ensures found >= 0 ==> found < 0x1_0000_0000 && found in kernel.k.crtcs && Usable(list, found) && exists j ::
                0 <= j < |kernel.resources.crtcs| && kernel.resources.crtcs[j] == found && Fits(Some(enc), j)
                && NoneUsableBelow(list, kernel.resources.crtcs, Some(enc), j)
      ensures at <= |kernel.resources.crtcs| && (found < 0 <==> at == |kernel.resources.crtcs|)
      ensures forall i | 0 <= i < at && (enc.possibleCrtcs / Pow2(i)) % 2 == 1 ::
                !Usable(list, kernel.resources.crtcs[i])
      ensures found >= 0 ==> found == kernel.resources.crtcs[at] && (enc.possibleCrtcs / Pow2(at)) % 2 == 1
    {
      var crtcs := kernel.resources.crtcs;
      var j := 0;
      while j < |crtcs|
        invariant 0 <= j <= |crtcs| && NoneUsableBelow(list, crtcs, Some(enc), j)
      {
        BitIs(enc.possibleCrtcs, j);
        if Bit(enc.possibleCrtcs, j) {
          var c := Claim(crtcs[j]);
          if c >= 0 {
            return c, j;
          }
        }
        j := j + 1;
      }
      return -1, |crtcs|;
    }

    /** `modeset_create_fb`: on failure everything created so far is undone, in reverse order. */
    method CreateFb(dev: Dev) returns (ret: int, dev': Dev)
      requires kernel.Sane()
      modifies kernel`k, kernel`failures
      ensures kernel.Sane() && old(kernel.k.next) <= kernel.k.next
      ensures ret != 0 ==> kernel.k == old(kernel.k).(next := kernel.k.next)
      ensures ret == 0 ==>
                && dev' == dev.(handle := dev'.handle, fb := dev'.fb, map_ := dev'.map_)
                && dev'.handle !in old(kernel.k.handles) && dev'.fb !in old(kernel.k.fbs)
                && dev'.map_ !in old(kernel.k.maps)
                && (forall c | c in old(kernel.k.crtcs) :: old(kernel.k.crtcs)[c].buffer != dev'.fb)
                && kernel.k == old(kernel.k).(handles := old(kernel.k.handles) + {dev'.handle},
                                              fbs := old(kernel.k.fbs) + {dev'.fb},
                                              maps := old(kernel.k.maps) + {dev'.map_}, next := kernel.k.next)
      ensures kernel.failures == old(kernel.failures) + if ret == 0 then 0 else 1
    {
      dev' := dev;
      var dumb := kernel.CreateDumb();
      if dumb.None? {
        return -EFAULT, dev';
      }
      dev' := dev'.(handle := dumb.value);
      var fb := kernel.AddFb(dev'.handle);
      if fb.None? {
        kernel.DestroyDumb(dev'.handle);
        return -EFAULT, dev';
      }
      dev' := dev'.(fb := fb.value);
      var prepared := kernel.MapDumb(dev'.handle);
      var map_: Option<nat> := None;
      if prepared {
        map_ := kernel.Mmap();
      }
      if map_.None? {
        assert WithoutFb(kernel.k.crtcs, dev'.fb) == kernel.k.crtcs;
        kernel.RmFb(dev'.fb);
        kernel.DestroyDumb(dev'.handle);
        return -EFAULT, dev';
      }
      dev' := dev'.(map_ := map_.value);
      return 0, dev';
    }

    /** `modeset_setup_dev`. */
    method SetupDev(conn: Connector, dev: Dev) returns (ret: int, dev': Dev, ghost outcome: Outcome)
      requires kernel.Sane() && dev.conn == conn.id && dev.saved.None?
      modifies kernel`k, kernel`failures, kernel`asked
      ensures kernel.Sane() && old(kernel.k.next) <= kernel.k.next
      ensures ret != 0 ==> kernel.k == old(kernel.k).(next := kernel.k.next)
                           && !outcome.Linked?
      ensures !outcome.Unavailable? && outcome.conn == conn && OutcomeHolds(list, kernel.resources.crtcs, outcome)
      ensures kernel.asked == old(kernel.asked) + outcome.Trace()
      ensures ret == 0 ==>
                && dev'.self == dev.self && IsSetUp(old(kernel.k), kernel.k, list, dev')
                && kernel.k.tokens == old(kernel.k.tokens)
                && outcome.Linked? && outcome.dev == dev'
      ensures kernel.failures == old(kernel.failures) + outcome.Failures()
    {
      if !conn.connected {
        return -ENOENT, dev, Unused(conn);
      }
      if |conn.modes| == 0 {
        return -EFAULT, dev, NoMode(conn);
      }
      dev' := dev.(mode := conn.modes[0]);
      var crtc;
      ghost var active, seen;
      ret, crtc, active, seen := FindCrtc(conn);
      if ret != 0 {
        return ret, dev', NoCrtc(conn, active, seen);
      }
      ChosenIsCompatible(list, kernel.resources.crtcs, active, seen, crtc);
      dev' := dev'.(crtc := crtc);
      ret, dev' := CreateFb(dev');
      if ret != 0 {
        return ret, dev', FbFailed(conn, active, seen, crtc);
      }
      outcome := Linked(conn, active, seen, dev');
      assert ([dev'] + list)[0] == dev';
    }

    /** `modeset_prepare`: every connector in turn; a failed one is freed and skipped. */
    method Prepare() returns (ret: int, ghost outcomes: seq<Outcome>)
      requires kernel.Sane() && list == []
      modifies kernel`k, kernel`failures, kernel`asked, this`list
      ensures kernel.Sane() && old(kernel.k.next) <= kernel.k.next
      ensures ret == 0 ==> Underway(old(kernel.k), kernel.k, list, {}, {}) && Unsaved(list)
      ensures ret != 0 ==> kernel.k == old(kernel.k) && list == []
      ensures ret == 0 ==> |outcomes| == |kernel.resources.connectors|
                           && AreAbout(outcomes, kernel.resources.connectors, kernel.connectors)
      ensures IsGreedy(outcomes, kernel.resources.crtcs) && list == Devices(outcomes)
      ensures kernel.asked == old(kernel.asked) + Traces(outcomes)
      ensures kernel.failures == old(kernel.failures) + FailuresOf(outcomes) + if ret == 0 then 0 else 1
    {
      outcomes := [];
      var res := kernel.GetResources();
      if res.None? {
        return -EFAULT, outcomes;
      }
      ghost var base := kernel.k;
      outcomes := PrepareAll(res.value.value.connectors);
      LedgerWithout(base, kernel.k, list, res.value.token);
      kernel.Free(res.value.token);
      StartsUnderway(old(kernel.k), kernel.k, list);
      ret := 0;
    }

    /** The loop of `modeset_prepare`. */
    method PrepareAll(connectors: seq<Id>) returns (ghost outcomes: seq<Outcome>)
      requires kernel.Sane() && list == []
      modifies kernel`k, kernel`failures, kernel`asked, this`list
      ensures kernel.Sane() && old(kernel.k.next) <= kernel.k.next && kernel.k.crtcs == old(kernel.k.crtcs)
      ensures Ledger(old(kernel.k), kernel.k, list) && Fresh(old(kernel.k), list) && Unsaved(list)
      ensures |outcomes| == |connectors| && AreAbout(outcomes, connectors, kernel.connectors)
      ensures IsGreedy(outcomes, kernel.resources.crtcs) && list == Devices(outcomes)
      ensures kernel.asked == old(kernel.asked) + Traces(outcomes)
      ensures kernel.failures == old(kernel.failures) + FailuresOf(outcomes)
    {
      outcomes := [];
      var i := 0;
      while i < |connectors|
        invariant 0 <= i == |outcomes| <= |connectors|
        invariant kernel.Sane() && old(kernel.k.next) <= kernel.k.next && kernel.k.crtcs == old(kernel.k.crtcs)
        invariant Ledger(old(kernel.k), kernel.k, list) && Fresh(old(kernel.k), list) && Unsaved(list)
        invariant AreAbout(outcomes, connectors, kernel.connectors)
        invariant IsGreedy(outcomes, kernel.resources.crtcs) && list == Devices(outcomes)
        invariant kernel.asked == old(kernel.asked) + Traces(outcomes)
        invariant kernel.failures == old(kernel.failures) + FailuresOf(outcomes)
      {
        outcomes := PrepareOne(connectors, i, old(kernel.k), old(kernel.asked), outcomes);
        i := i + 1;
      }
    }

    /** One iteration of `modeset_prepare`. */
    method PrepareOne(connectors: seq<Id>, i: nat, ghost base: KernelState, ghost before: seq<Asked>,
                      ghost outcomes: seq<Outcome>)
      returns (ghost outcomes': seq<Outcome>)
      requires |outcomes| == i < |connectors| && AreAbout(outcomes, connectors, kernel.connectors)
      requires kernel.Sane() && base.next <= kernel.k.next && kernel.k.crtcs == base.crtcs
      requires Ledger(base, kernel.k, list) && Fresh(base, list) && Unsaved(list)
      requires IsGreedy(outcomes, kernel.resources.crtcs) && list == Devices(outcomes)
      requires kernel.asked == before + Traces(outcomes)
      modifies kernel`k, kernel`failures, kernel`asked, this`list
      ensures kernel.Sane() && base.next <= kernel.k.next && kernel.k.crtcs == base.crtcs
      ensures Ledger(base, kernel.k, list) && Fresh(base, list) && Unsaved(list)
      ensures IsGreedy(outcomes', kernel.resources.crtcs) && list == Devices(outcomes')
      ensures |outcomes'| == i + 1 && AreAbout(outcomes', connectors, kernel.connectors)
      ensures kernel.asked == before + Traces(outcomes')
      ensures kernel.failures - FailuresOf(outcomes') == old(kernel.failures) - FailuresOf(outcomes)
    {
      var dev;
      ghost var outcome;
      dev, outcome := Examine(connectors[i]);
      outcomes' := outcomes + [outcome];
      FailuresSnoc(outcomes, outcome);
      TraceStep(before, old(kernel.asked), outcomes, outcome);
      GreedyStep(outcomes, kernel.resources.crtcs, list, outcome, if dev.Some? then [dev.value] + list else list);
      if dev.Some? {
        LedgerCons(base, old(kernel.k), dev.value, list, kernel.k);
        list := [dev.value] + list;
      }
    }

    /** The device of a connector, if it could be set up; if not, everything allocated for it is freed. */
    method Examine(id: Id) returns (dev: Option<Dev>, ghost outcome: Outcome)
      requires kernel.Sane()
      modifies kernel`k, kernel`failures, kernel`asked
      ensures kernel.Sane() && old(kernel.k.next) <= kernel.k.next
      ensures dev.None? ==> kernel.k == old(kernel.k).(next := kernel.k.next)
      ensures OutcomeHolds(list, kernel.resources.crtcs, outcome) && IsAbout(outcome, id, kernel.connectors)
      ensures kernel.asked == old(kernel.asked) + outcome.Trace()
      ensures dev == if outcome.Linked? then Some(outcome.dev) else None
      ensures dev.Some? ==> IsSetUp(old(kernel.k), kernel.k, list, dev.value)
                            && kernel.k.tokens == old(kernel.k.tokens) + {dev.value.self}
                            && dev.value.self !in old(kernel.k.tokens)
      ensures kernel.failures == old(kernel.failures) + outcome.Failures()
    {
      var conn := kernel.GetConnector(id);
      if conn.None? {
        return None, Unavailable;
      }
      dev, outcome := NewDevice(conn.value.value);
      kernel.Free(conn.value.token);
    }

    /** Allocates the device structure and sets it up; if that fails, the structure is freed. */
    method NewDevice(conn: Connector) returns (dev: Option<Dev>, ghost outcome: Outcome)
      requires kernel.Sane()
      modifies kernel`k, kernel`failures, kernel`asked
      ensures kernel.Sane() && old(kernel.k.next) <= kernel.k.next
      ensures dev.None? ==> kernel.k == old(kernel.k).(next := kernel.k.next)
      ensures !outcome.Unavailable? && outcome.conn == conn && OutcomeHolds(list, kernel.resources.crtcs, outcome)
      ensures kernel.asked == old(kernel.asked) + outcome.Trace()
      ensures dev == if outcome.Linked? then Some(outcome.dev) else None
      ensures dev.Some? ==> IsSetUp(old(kernel.k), kernel.k, list, dev.value)
                            && kernel.k.tokens == old(kernel.k.tokens) + {dev.value.self}
                            && dev.value.self !in old(kernel.k.tokens)
      ensures kernel.failures == old(kernel.failures) + outcome.Failures()
    {
      var d := Dev(0, conn.id, Mode(0, 0, 0), 0, 0, 0, 0, None);
      var self := kernel.Allocate();
      d := d.(self := self);
      var ret;
      ret, d, outcome := SetupDev(conn, d);
      if ret != 0 {
        kernel.Free(self);
        return None, outcome;
      }
      dev := Some(d);
    }

    /** The loop of `main` that saves each listed CRTC and then shows the device's framebuffer on it.
        `shows` are the kernel's answers. */
    method SetAll(ghost b: KernelState) returns (ghost shows: seq<bool>, ghost shown: set<Id>)
      requires kernel.Sane() && b.Valid() && Underway(b, kernel.k, list, {}, {}) && Unsaved(list)
      modifies kernel`k, kernel`failures, kernel`sets, this`list
      ensures kernel.Sane() && Underway(b, kernel.k, list, shown, {}) && |shows| == |list|
      ensures Progress(old(list), list, shows, shown, kernel.failures > old(kernel.failures))
      ensures kernel.sets == old(kernel.sets) + SetCalls(old(list), Pictures(old(list)), shows)
      ensures kernel.failures >= old(kernel.failures)
    {
      shows, shown := [], {};
      var i := 0;
      while i < |list|
        invariant i == |shows| <= |list| && kernel.Sane() && Underway(b, kernel.k, list, shown, {})
        invariant Progress(old(list), list, shows, shown, kernel.failures > old(kernel.failures))
        invariant kernel.sets == old(kernel.sets) + SetCalls(old(list), Pictures(old(list)), shows)
        invariant kernel.failures >= old(kernel.failures)
      {
        shows, shown := SetOne(i, b, old(list), shows, shown, old(kernel.failures), old(kernel.sets));
        i := i + 1;
      }
    }

    /** One iteration of that loop. */
    method SetOne(i: nat, ghost b: KernelState, ghost was: seq<Dev>, ghost shows: seq<bool>, ghost shown: set<Id>,
                  ghost n: nat, ghost before: seq<SetCall>)
      returns (ghost shows': seq<bool>, ghost shown': set<Id>)
      requires i == |shows| < |list| && kernel.Sane() && b.Valid() && Underway(b, kernel.k, list, shown, {})
      requires Progress(was, list, shows, shown, kernel.failures > n) && kernel.failures >= n
      requires kernel.sets == before + SetCalls(was, Pictures(was), shows)
      modifies kernel`k, kernel`failures, kernel`sets, this`list
      ensures kernel.Sane() && Underway(b, kernel.k, list, shown', {}) && |list| == old(|list|) && |shows'| == i + 1
      ensures Progress(was, list, shows', shown', kernel.failures > n) && kernel.failures >= n
      ensures kernel.sets == before + SetCalls(was, Pictures(was), shows')
    {
      ListedIsLive(b, kernel.k, list, i, shown, {});
      ghost var k1;
      var saved, ok;
      saved, ok, k1 := SaveAndShow(list[i]);
      SaveStep(b, old(kernel.k), list, shown, i, saved, k1);
      ProgressStep(was, list, shows, shown, old(kernel.failures) > n, saved, ok);
      NextCall(before, was, Pictures(was), shows, ok);
      list := list[i := list[i].(saved := saved)];
      shows', shown' := shows + [ok], shown;
      if ok {
        SetStep(b, k1, list, shown, i, kernel.k);
        shown' := shown + {list[i].crtc};
      }
    }

    /** Saves the device's CRTC and then shows its framebuffer there. */
    method SaveAndShow(d: Dev) returns (saved: Option<Owned<Crtc>>, ok: bool, ghost k1: KernelState)
      requires kernel.k.Valid() && d.crtc in kernel.k.crtcs && d.fb < kernel.k.next
      modifies kernel`k, kernel`failures, kernel`sets
      ensures kernel.k.Valid() && old(kernel.k.next) <= k1.next <= kernel.k.next
      ensures saved.None? ==> k1 == old(kernel.k)
      ensures saved.Some? ==>
                && saved.value.value == old(kernel.k.crtcs)[d.crtc] && saved.value.token !in old(kernel.k.tokens)
                && k1 == old(kernel.k).(tokens := old(kernel.k.tokens) + {saved.value.token}, next := k1.next)
      ensures kernel.k == if ok then k1.(crtcs := k1.crtcs[d.crtc := Picture(d)]) else k1
      ensures kernel.sets == old(kernel.sets) + [SetCall(d.crtc, d.conn, Picture(d), ok)]
      ensures Picture(d) == Crtc(d.fb, 0, 0, d.mode.timing)
      ensures kernel.failures == old(kernel.failures) + if saved.None? then 1 else 0
    {
      saved := kernel.GetCrtc(d.crtc);
      k1 := kernel.k;
      ok := kernel.SetCrtc(d.crtc, d.conn, Picture(d));
    }

    /** `modeset_cleanup`. It follows the saved CRTC of every device, also when saving it failed:
        `crashed` stands for that null dereference. `backs` are the kernel's answers. */
    method Cleanup(ghost b: KernelState, ghost shown: set<Id>) returns (crashed: bool, ghost backs: seq<bool>)
      requires kernel.Sane() && b.Valid() && Underway(b, kernel.k, list, shown, {})
      modifies kernel`k, kernel`sets, this`list
      ensures crashed <==> !AllSaved(old(list))
      ensures |backs| <= |old(list)| && (!crashed <==> |backs| == |old(list)|)
      ensures kernel.sets == old(kernel.sets) + SetCalls(old(list), Originals(b.crtcs, old(list)), backs)
      ensures !crashed ==> list == [] && Underway(b, kernel.k, [], shown, Agreed(old(list), backs))
    {
      backs := [];
      ghost var back: set<Id> := {};
      while list != []
        invariant kernel.Sane() && Underway(b, kernel.k, list, shown, back)
        invariant Cleaned(old(list), list, backs, back)
        invariant kernel.sets == old(kernel.sets) + SetCalls(old(list), Originals(b.crtcs, old(list)), backs)
        decreases |list|
      {
        CleanedCrash(old(list), list, backs, back);
        var d := list[0];
        if d.saved.None? {
          list := list[1..];
          return true, backs;
        }
        backs, back := CleanOne(d, b, shown, old(list), backs, back, old(kernel.sets));
      }
      CleanedCrash(old(list), list, backs, back);
      crashed := false;
    }

    /** One iteration of `modeset_cleanup`, for a device that was saved. */
    method CleanOne(d: Dev, ghost b: KernelState, ghost shown: set<Id>, ghost devs: seq<Dev>,
                    ghost backs: seq<bool>, ghost back: set<Id>, ghost before: seq<SetCall>)
      returns (ghost backs': seq<bool>, ghost back': set<Id>)
      requires list != [] && list[0] == d && d.saved.Some?
      requires kernel.Sane() && b.Valid() && Underway(b, kernel.k, list, shown, back)
      requires Cleaned(devs, list, backs, back)
      requires kernel.sets == before + SetCalls(devs, Originals(b.crtcs, devs), backs)
      modifies kernel`k, kernel`sets, this`list
      ensures list == old(list)[1..]
      ensures kernel.Sane() && Underway(b, kernel.k, list, shown, back') && Cleaned(devs, list, backs', back')
      ensures kernel.sets == before + SetCalls(devs, Originals(b.crtcs, devs), backs')
    {
      ListedIsLive(b, kernel.k, list, 0, shown, back);
      HeadAndTail(list);
      list := list[1..];
      var ok := Release(d, d.saved.value);
      CleanStep(b, old(kernel.k), d, list, shown, back, ok, kernel.k);
      CleanedStep(devs, old(list), backs, back, ok);
      SavedIsOriginal(b.crtcs, old(list), devs, backs, back);
      NextCall(before, devs, Originals(b.crtcs, devs), backs, ok);
      backs' := backs + [ok];
      back' := if ok then back + {d.crtc} else back;
    }

    /** Puts the saved picture back and releases everything the device owns. */
    method Release(d: Dev, saved: Owned<Crtc>) returns (ok: bool)
      requires kernel.k.Valid() && d.crtc in kernel.k.crtcs && saved.value.buffer < kernel.k.next
      requires d.fb in kernel.k.fbs && d.handle in kernel.k.handles && d.map_ in kernel.k.maps
      requires saved.token in kernel.k.tokens && d.self in kernel.k.tokens && d.self != saved.token
      modifies kernel`k, kernel`sets
      ensures kernel.k.Valid() && old(kernel.k.next) <= kernel.k.next
      ensures kernel.sets == old(kernel.sets) + [SetCall(d.crtc, d.conn, saved.value, ok)]
      ensures kernel.k == KernelState(
                WithoutFb(if ok then old(kernel.k.crtcs)[d.crtc := saved.value] else old(kernel.k.crtcs), d.fb),
                old(kernel.k.handles) - {d.handle}, old(kernel.k.fbs) - {d.fb}, old(kernel.k.maps) - {d.map_},
                old(kernel.k.tokens) - {saved.token} - {d.self}, kernel.k.next)
    {
      ok := kernel.SetCrtc(d.crtc, d.conn, saved.value);
      kernel.Free(saved.token);
      kernel.Munmap(d.map_);
      kernel.RmFb(d.fb);
      kernel.DestroyDumb(d.handle);
      kernel.Free(d.self);
    }

    /** `main`. Whatever fails, every buffer, framebuffer, mapping and allocation made is released,
        unless a failed save is dereferenced. `shows` and `backs` are the kernel's answers to the calls that
        set a CRTC for a device and back: a CRTC differs afterwards exactly if it was set, could not be set
        back, and was not off before. `during` is what the CRTCs show while the program draws. */
    method Run() returns (ret: int, crashed: bool, ghost outcomes: seq<Outcome>, ghost devs: seq<Dev>,
                          ghost during: map<Id, Crtc>, ghost shows: seq<bool>, ghost backs: seq<bool>)
      requires kernel.Sane() && list == []
      modifies kernel`k, kernel`failures, kernel`asked, kernel`sets, this`list
      ensures ret != 0 ==>
                && !crashed && kernel.k == old(kernel.k).(next := kernel.k.next)
                && kernel.sets == old(kernel.sets) && list == []
      ensures ret == 0 ==> IsGreedy(outcomes, kernel.resources.crtcs) && |outcomes| == |kernel.resources.connectors|
      ensures ret == 0 ==> AreAbout(outcomes, kernel.resources.connectors, kernel.connectors)
      ensures ret == 0 ==> kernel.asked == old(kernel.asked) + Traces(outcomes)
      ensures ret == 0 ==> devs == Devices(outcomes) && AreShown(old(kernel.k.crtcs), devs, shows, during)
      ensures ret == 0 ==> |backs| <= |devs| == |shows| && (crashed <==> |backs| < |devs|)
      ensures ret == 0 ==> kernel.sets == old(kernel.sets) + SetCalls(devs, Pictures(devs), shows)
                                          + SetCalls(devs, Originals(old(kernel.k.crtcs), devs), backs)
      ensures ret == 0 ==> (crashed <==> kernel.failures > old(kernel.failures) + FailuresOf(outcomes))
      ensures ret != 0 <==> kernel.failures > old(kernel.failures) + FailuresOf(outcomes) && !crashed
      ensures ret == 0 && !crashed ==>
                && list == []
                && kernel.k == old(kernel.k).(crtcs := Final(old(kernel.k.crtcs), Dark(devs, shows, backs)),
                                              next := kernel.k.next)
      ensures ret == 0 && !crashed ==>
                (kernel.k.crtcs == old(kernel.k.crtcs)
                 <==> forall i | 0 <= i < |devs| && shows[i] && !backs[i] :: old(kernel.k.crtcs)[devs[i].crtc] == OFF)
    {
      outcomes, devs, during, shows, backs, crashed := [], [], kernel.k.crtcs, [], [], false;
      var ok := kernel.Open();
      ret := -EFAULT;
      if ok {
        ret, outcomes := Prepare();
        if ret == 0 {
          devs := list;
          crashed, during, shows, backs := ShowAll(old(kernel.k));
          if !crashed {
            RestoredIff(old(kernel.k.crtcs), devs, shows, backs);
          }
        }
      }
    }

    /** The part of `main` after preparation. */
    method ShowAll(ghost b: KernelState)
      returns (crashed: bool, ghost during: map<Id, Crtc>, ghost shows: seq<bool>, ghost backs: seq<bool>)
      requires kernel.Sane() && b.Valid() && Underway(b, kernel.k, list, {}, {}) && Unsaved(list)
      modifies kernel`k, kernel`failures, kernel`sets, this`list
      ensures AreShown(b.crtcs, old(list), shows, during)
      ensures |backs| <= |old(list)| == |shows| && (crashed <==> |backs| < |old(list)|)
      ensures kernel.sets == old(kernel.sets) + SetCalls(old(list), Pictures(old(list)), shows)
                             + SetCalls(old(list), Originals(b.crtcs, old(list)), backs)
      ensures kernel.failures >= old(kernel.failures) && (crashed <==> kernel.failures > old(kernel.failures))
      ensures !crashed ==>
                && list == []
                && kernel.k == b.(crtcs := Final(b.crtcs, Dark(old(list), shows, backs)), next := kernel.k.next)
    {
      ghost var shown;
      shows, shown := SetAll(b);
      during := kernel.k.crtcs;
      ProgressIsShown(b, kernel.k, old(list), list, shows, shown, kernel.failures > old(kernel.failures));
      ghost var saved := list;
      SameCalls(b.crtcs, old(list), saved);
      crashed, backs := Cleanup(b, shown);
      if !crashed {
        CleanedUp(b, kernel.k, saved, shows, backs);
      }
    }
  }
}
