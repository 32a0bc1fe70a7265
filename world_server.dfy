/**
 * The authoritative world simulation: entities with dirty flags, zones with
 * resource nodes that bloom on a timer, and per-client area-of-interest (AOI)
 * replication with a valence-scaled radius and a two-band visibility filter.
 *
 * Distances are compared squared, so no square root is needed: for a radius
 * r >= 0, `dist <= r` holds exactly when `dist * dist <= r * r`.
 */
module World {
  import opened Wrappers
  import opened Protocol
  import opened Numerics

  type EntityId = nat
  type ClientId = nat
  type ZoneId = nat

  const BASE_AOI_RADIUS: real := 150.0
  const MAX_AOI_RADIUS: real := 300.0
  /** Seconds between two replication passes (100 ms). */
  const REPLICATION_RATE: real := 0.1
  /** A node gains one yield once its bloom timer exceeds this many seconds. */
  const BLOOM_PERIOD: real := 60.0
  /** `mark_nearby_dirty` marks entities closer than this to the given point. */
  const NEARBY_RADIUS: real := BASE_AOI_RADIUS * 1.5
  /** `add_entity` refuses a spawn whose computed valence is below this. */
  const SPAWN_VALENCE: real := 0.60

  // ─── Geometry ────────────────────────────────────────────────────────

  function DistSq(a: Vec3, b: Vec3): real
  {
    (a.x - b.x) * (a.x - b.x) + (a.y - b.y) * (a.y - b.y) + (a.z - b.z) * (a.z - b.z)
  }

  /** Rust's `Instant::duration_since`, which saturates at zero. */
  function Elapsed(since: real, now: real): (d: real)
    ensures d >= 0.0
    ensures since <= now ==> d == now - since
  {
    if now >= since then now - since else 0.0
  }

  // ─── Records ─────────────────────────────────────────────────────────

  /** A connected client's interest state; its send queue is not modelled. */
  datatype ClientInterest = ClientInterest(
    clientId: ClientId,
    position: Vec3,
    valence: real,
    visibleEntities: set<EntityId>)
  {
    /** The AOI radius grows linearly with the client's clamped valence. */
    function CurrentAoiRadius(): (r: real)
      ensures BASE_AOI_RADIUS <= r <= MAX_AOI_RADIUS
      ensures valence <= 0.0 ==> r == BASE_AOI_RADIUS
      ensures valence >= 1.0 ==> r == MAX_AOI_RADIUS
    {
      BASE_AOI_RADIUS + (MAX_AOI_RADIUS - BASE_AOI_RADIUS) * Clamp(valence, 0.0, 1.0)
    }
  }

  /** `ClientInterest::new`: a new client has seen nothing yet. */
  function NewClientInterest(clientId: ClientId, position: Vec3, valence: real): (c: ClientInterest)
    ensures c.visibleEntities == {}
    ensures c.clientId == clientId && c.position == position && c.valence == valence
  {
    ClientInterest(clientId, position, valence, {})
  }

  /** A raising valence never shrinks the AOI radius. */
  lemma RadiusMonotone(c: ClientInterest, c': ClientInterest)
    requires c.valence <= c'.valence
    ensures c.CurrentAoiRadius() <= c'.CurrentAoiRadius()
  {
  }

  /** A client of valence 0.8 sees 270 units far. */
  lemma RadiusAtPointEight(c: ClientInterest)
    requires c.valence == 0.8
    ensures c.CurrentAoiRadius() == 270.0
  {
  }

  /** An entity with its dirty flag; the `last_sent` timestamp is not modelled. */
  datatype EntityState = EntityState(snapshot: EntitySnapshot, dirty: bool)

  /** `EntityState::new`: a new entity is dirty, so every client in range gets it. */
  function NewEntityState(snapshot: EntitySnapshot): (e: EntityState)
    ensures e.dirty && e.snapshot == snapshot
  {
    EntityState(snapshot, true)
  }

  /** `EntityState::mark_dirty`. */
  function MarkDirty(e: EntityState): (e': EntityState)
    ensures e'.dirty && e'.snapshot == e.snapshot
  {
    e.(dirty := true)
  }

  datatype NodeState = NodeState(
    id: nat,
    position: Vec3,
    resourceType: string,
    yieldRemaining: nat,
    bloomTimer: real)

  datatype CreatureState = CreatureState(
    id: nat,
    position: Vec3,
    factionAffinity: string,
    valence: real)

  datatype Zone = Zone(
    id: ZoneId,
    center: Vec3,
    radius: real,
    nodes: seq<NodeState>,
    creatures: seq<CreatureState>)

  // ─── Bloom timers ────────────────────────────────────────────────────

  /** Does this node gain a yield on a tick of `delta` seconds? */
  predicate Blooms(n: NodeState, delta: real)
  {
    n.yieldRemaining > 0 && n.bloomTimer + delta > BLOOM_PERIOD
  }

  /**
   * One node's update in `tick`: a depleted node is untouched; a live one
   * either blooms (one more yield, timer reset) or accrues `delta`.
   */
  function BloomNode(n: NodeState, delta: real): (m: NodeState)
    ensures m.id == n.id && m.position == n.position && m.resourceType == n.resourceType
    ensures n.yieldRemaining == 0 ==> m == n
    ensures Blooms(n, delta) ==> m.yieldRemaining == n.yieldRemaining + 1 && m.bloomTimer == 0.0
    ensures n.yieldRemaining > 0 && !Blooms(n, delta) ==>
      m.yieldRemaining == n.yieldRemaining && m.bloomTimer == n.bloomTimer + delta
  {
    if n.yieldRemaining > 0 then
      if n.bloomTimer + delta > BLOOM_PERIOD then
        n.(yieldRemaining := n.yieldRemaining + 1, bloomTimer := 0.0)
      else
        n.(bloomTimer := n.bloomTimer + delta)
    else
      n
  }

  /**
   * Invariant kept by every tick with a non-negative elapsed time: the yield
   * never falls, a depleted node stays depleted, and a timer that starts in
   * [0, 60] stays in [0, 60].
   */
  lemma BloomNodeInvariant(n: NodeState, delta: real)
    requires delta >= 0.0
    requires 0.0 <= n.bloomTimer <= BLOOM_PERIOD
    ensures var m := BloomNode(n, delta);
      && m.yieldRemaining >= n.yieldRemaining
      && (m.yieldRemaining == 0 <==> n.yieldRemaining == 0)
      && 0.0 <= m.bloomTimer <= BLOOM_PERIOD
  {
  }

  function TickNodes(nodes: seq<NodeState>, delta: real): (r: seq<NodeState>)
    ensures |r| == |nodes|
    ensures forall k :: 0 <= k < |nodes| ==> r[k] == BloomNode(nodes[k], delta)
  {
    seq(|nodes|, k requires 0 <= k < |nodes| => BloomNode(nodes[k], delta))
  }

  function TickZones(zones: map<ZoneId, Zone>, delta: real): (r: map<ZoneId, Zone>)
    ensures r.Keys == zones.Keys
  {
    map z | z in zones :: zones[z].(nodes := TickNodes(zones[z].nodes, delta))
  }

  /** Positions of the nodes of `nodes` that bloom on this tick. */
  function NodeSites(nodes: seq<NodeState>, delta: real): set<Vec3>
  {
    set k | 0 <= k < |nodes| && Blooms(nodes[k], delta) :: nodes[k].position
  }

  /** Positions of the blooming nodes of the zones in `ids`. */
  function ZoneSites(zones: map<ZoneId, Zone>, ids: set<ZoneId>, delta: real): set<Vec3>
  {
    set z, k | z in ids && z in zones && 0 <= k < |zones[z].nodes| && Blooms(zones[z].nodes[k], delta)
      :: zones[z].nodes[k].position
  }

  function BloomSites(zones: map<ZoneId, Zone>, delta: real): set<Vec3>
  {
    ZoneSites(zones, zones.Keys, delta)
  }

  lemma NodeSitesStep(nodes: seq<NodeState>, j: nat, delta: real)
    requires j < |nodes|
    ensures NodeSites(nodes[..j + 1], delta)
         == NodeSites(nodes[..j], delta) + (if Blooms(nodes[j], delta) then {nodes[j].position} else {})
  {
    var a := NodeSites(nodes[..j + 1], delta);
    var b := NodeSites(nodes[..j], delta) + (if Blooms(nodes[j], delta) then {nodes[j].position} else {});
    forall p | p in a ensures p in b {
      var k :| 0 <= k < j + 1 && Blooms(nodes[..j + 1][k], delta) && nodes[..j + 1][k].position == p;
      if k < j {
        assert nodes[..j][k] == nodes[k];
      }
    }
    forall p | p in b ensures p in a {
      if p in NodeSites(nodes[..j], delta) {
        var k :| 0 <= k < j && Blooms(nodes[..j][k], delta) && nodes[..j][k].position == p;
        assert nodes[..j + 1][k] == nodes[k];
      } else {
        assert nodes[..j + 1][j] == nodes[j];
      }
    }
  }

  lemma ZoneSitesStep(zones: map<ZoneId, Zone>, ids: set<ZoneId>, z: ZoneId, delta: real)
    requires z in zones
    ensures ZoneSites(zones, ids + {z}, delta) == ZoneSites(zones, ids, delta) + NodeSites(zones[z].nodes, delta)
  {
  }

  // ─── Dirty marking ───────────────────────────────────────────────────

  predicate Near(e: EntityState, p: Vec3)
  {
    DistSq(FromSer(e.snapshot.position), p) < NEARBY_RADIUS * NEARBY_RADIUS
  }

  predicate NearAny(e: EntityState, sites: set<Vec3>)
  {
    exists p :: p in sites && Near(e, p)
  }

  /**
   * `mark_nearby_dirty(p)` on the entity map: it sets the flag of exactly the
   * entities closer than 225 to `p` and changes nothing else.
   */
  function MarkNear(entities: map<EntityId, EntityState>, p: Vec3): (r: map<EntityId, EntityState>)
    ensures r.Keys == entities.Keys
    ensures forall id :: id in entities ==>
      && r[id].snapshot == entities[id].snapshot
      && r[id].dirty == (entities[id].dirty || Near(entities[id], p))
  {
    map id | id in entities :: if Near(entities[id], p) then MarkDirty(entities[id]) else entities[id]
  }

  /** The entity map after marking around every one of `sites`. */
  function MarkAll(entities: map<EntityId, EntityState>, sites: set<Vec3>): map<EntityId, EntityState>
  {
    map id | id in entities :: if NearAny(entities[id], sites) then MarkDirty(entities[id]) else entities[id]
  }

  lemma MarkAllNone(entities: map<EntityId, EntityState>)
    ensures MarkAll(entities, {}) == entities
  {
  }

  lemma MarkAllThenNear(entities: map<EntityId, EntityState>, sites: set<Vec3>, p: Vec3)
    ensures MarkNear(MarkAll(entities, sites), p) == MarkAll(entities, sites + {p})
  {
    var lhs := MarkNear(MarkAll(entities, sites), p);
    var rhs := MarkAll(entities, sites + {p});
    forall id | id in entities ensures lhs[id] == rhs[id] {
      if Near(entities[id], p) {
        assert NearAny(entities[id], sites + {p});
      } else if NearAny(entities[id], sites) {
        var q :| q in sites && Near(entities[id], q);
        assert q in sites + {p};
      }
    }
  }

  lemma MarkAllTwice(entities: map<EntityId, EntityState>, s1: set<Vec3>, s2: set<Vec3>)
    ensures MarkAll(MarkAll(entities, s1), s2) == MarkAll(entities, s1 + s2)
  {
    var lhs := MarkAll(MarkAll(entities, s1), s2);
    var rhs := MarkAll(entities, s1 + s2);
    forall id | id in entities ensures lhs[id] == rhs[id] {
      var e := entities[id];
      if NearAny(e, s1 + s2) {
        var q :| q in s1 + s2 && Near(e, q);
        if q in s1 { assert NearAny(e, s1); } else { assert NearAny(e, s2); }
      }
      if NearAny(e, s1) {
        var q :| q in s1 && Near(e, q);
        assert q in s1 + s2;
      }
      if NearAny(e, s2) {
        var q :| q in s2 && Near(e, q);
        assert q in s1 + s2;
      }
    }
  }

  // ─── Visibility and deltas ───────────────────────────────────────────

  /**
   * The two-band filter: entities below 0.40 are hidden from everyone,
   * entities below 0.60 from every client below 0.70.
   */
  function Hidden(entityValence: real, clientValence: real): (h: bool)
    ensures entityValence < 0.40 ==> h
    ensures entityValence >= 0.60 ==> !h
    ensures clientValence >= 0.70 ==> (h <==> entityValence < 0.40)
    ensures h && clientValence < 0.70 ==> entityValence < 0.60
  {
    entityValence < 0.40 || (entityValence < 0.60 && clientValence < 0.70)
  }

  /** Within the client's radius, the boundary included. */
  predicate InAoi(e: EntityState, c: ClientInterest)
  {
    var r := c.CurrentAoiRadius();
    DistSq(FromSer(e.snapshot.position), c.position) <= r * r
  }

  /** Shown to the client now: not filtered out, and within its radius. */
  function Qualifies(e: EntityState, c: ClientInterest): (q: bool)
    ensures q ==> e.snapshot.valence >= 0.40
    ensures e.snapshot.valence >= 0.60 ==> (q <==> InAoi(e, c))
  {
    !Hidden(e.snapshot.valence, c.valence) && InAoi(e, c)
  }

  /** The ids that pass the filter and lie in the client's AOI. */
  function VisibleNow(entities: map<EntityId, EntityState>, c: ClientInterest): (v: set<EntityId>)
    ensures v <= entities.Keys
    ensures forall id :: id in v ==> entities[id].snapshot.valence >= 0.40 && InAoi(entities[id], c)
  {
    set id | id in entities && Qualifies(entities[id], c)
  }

  /** The ids a pass sends to a client: qualifying, and dirty or not seen yet. */
  function Delta(entities: map<EntityId, EntityState>, c: ClientInterest): (d: set<EntityId>)
    ensures d <= VisibleNow(entities, c)
    ensures VisibleNow(entities, c) - c.visibleEntities <= d
    ensures forall id :: id in VisibleNow(entities, c) && entities[id].dirty ==> id in d
  {
    set id | id in entities && Qualifies(entities[id], c) && (entities[id].dirty || id !in c.visibleEntities)
  }

  function ClearDirty(entities: map<EntityId, EntityState>, sent: set<EntityId>): map<EntityId, EntityState>
  {
    map id | id in entities :: if id in sent then entities[id].(dirty := false) else entities[id]
  }

  /** The entity map after the clients of `cs` took their turns, in order. */
  function EntitiesAfter(entities: map<EntityId, EntityState>, cs: seq<ClientInterest>): map<EntityId, EntityState>
    decreases |cs|
  {
    if cs == [] then entities
    else
      var before := EntitiesAfter(entities, cs[..|cs| - 1]);
      ClearDirty(before, Delta(before, cs[|cs| - 1]))
  }

  /** The delta each client of `cs` receives in one pass. */
  function DeltasAfter(entities: map<EntityId, EntityState>, cs: seq<ClientInterest>): (ds: seq<set<EntityId>>)
    ensures |ds| == |cs|
    decreases |cs|
  {
    if cs == [] then []
    else
      var before := EntitiesAfter(entities, cs[..|cs| - 1]);
      DeltasAfter(entities, cs[..|cs| - 1]) + [Delta(before, cs[|cs| - 1])]
  }

  /** The clients after `replicate_with_aoi`: each one's visible set replaced. */
  function WithViews(entities: map<EntityId, EntityState>, cs: seq<ClientInterest>): (r: seq<ClientInterest>)
    ensures |r| == |cs|
  {
    seq(|cs|, k requires 0 <= k < |cs| => cs[k].(visibleEntities := VisibleNow(entities, cs[k])))
  }

  /** The clients after `broadcast_aoi_deltas`, each one's view computed on its turn. */
  function Broadcasted(entities: map<EntityId, EntityState>, cs: seq<ClientInterest>): (r: seq<ClientInterest>)
    ensures |r| == |cs|
  {
    seq(|cs|, k requires 0 <= k < |cs| => cs[k].(visibleEntities := BroadcastView(EntitiesAfter(entities, cs[..k]), cs[k])))
  }

  lemma BroadcastedViewsInDomain(entities: map<EntityId, EntityState>, cs: seq<ClientInterest>)
    ensures forall k :: 0 <= k < |cs| ==> Broadcasted(entities, cs)[k].clientId == cs[k].clientId
    ensures forall k :: 0 <= k < |cs| ==> Broadcasted(entities, cs)[k].visibleEntities <= entities.Keys
  {
    forall k | 0 <= k < |cs|
      ensures Broadcasted(entities, cs)[k].visibleEntities <= entities.Keys
    {
      PassKeepsSnapshots(entities, cs[..k]);
    }
  }

  /** The visible set `broadcast_aoi_deltas` leaves: old set plus delta, minus what is out of range. */
  function BroadcastView(entities: map<EntityId, EntityState>, c: ClientInterest): set<EntityId>
  {
    set id | id in c.visibleEntities + Delta(entities, c) && id in entities && InAoi(entities[id], c)
  }

  /** The entry condition of a delta, both directions. */
  lemma DeltaMembership(entities: map<EntityId, EntityState>, c: ClientInterest, id: EntityId)
    ensures id in Delta(entities, c) <==>
      && id in entities
      && !Hidden(entities[id].snapshot.valence, c.valence)
      && InAoi(entities[id], c)
      && (entities[id].dirty || id !in c.visibleEntities)
  {
  }

  /** A pass changes only dirty flags: same ids, same snapshots. */
  lemma {:induction false} PassKeepsSnapshots(entities: map<EntityId, EntityState>, cs: seq<ClientInterest>)
    ensures EntitiesAfter(entities, cs).Keys == entities.Keys
    ensures forall id :: id in entities ==> EntitiesAfter(entities, cs)[id].snapshot == entities[id].snapshot
    decreases |cs|
  {
    if cs != [] {
      PassKeepsSnapshots(entities, cs[..|cs| - 1]);
    }
  }

  /** Filter and radius read only snapshots, so the flags cleared earlier in a pass do not change them. */
  lemma VisibleIgnoresFlags(entities: map<EntityId, EntityState>, cs: seq<ClientInterest>, c: ClientInterest)
    ensures VisibleNow(EntitiesAfter(entities, cs), c) == VisibleNow(entities, c)
  {
    PassKeepsSnapshots(entities, cs);
  }

  /** The ids of a sequence of deltas, together. */
  function UnionOf(ds: seq<set<EntityId>>): (u: set<EntityId>)
    ensures forall k :: 0 <= k < |ds| ==> ds[k] <= u
    ensures forall id :: id in u ==> exists k :: 0 <= k < |ds| && id in ds[k]
    decreases |ds|
  {
    if ds == [] then {} else UnionOf(ds[..|ds| - 1]) + ds[|ds| - 1]
  }

  lemma ClearDirtyTwice(entities: map<EntityId, EntityState>, a: set<EntityId>, b: set<EntityId>)
    ensures ClearDirty(ClearDirty(entities, a), b) == ClearDirty(entities, a + b)
  {
  }

  /** Unfolding a pass by its last client. */
  lemma PassStep(entities: map<EntityId, EntityState>, cs: seq<ClientInterest>, i: nat)
    requires i < |cs|
    ensures var before := EntitiesAfter(entities, cs[..i]);
      && EntitiesAfter(entities, cs[..i + 1]) == ClearDirty(before, Delta(before, cs[i]))
      && DeltasAfter(entities, cs[..i + 1]) == DeltasAfter(entities, cs[..i]) + [Delta(before, cs[i])]
  {
    assert cs[..i + 1][..i] == cs[..i];
    assert cs[..i + 1][i] == cs[i];
  }

  /**
   * A pass clears the flags of exactly the entities that some client received:
   * an entity keeps its flag iff no delta of the pass contains it.
   */
  lemma {:induction false} PassClearsExactlySent(entities: map<EntityId, EntityState>, cs: seq<ClientInterest>)
    ensures EntitiesAfter(entities, cs) == ClearDirty(entities, UnionOf(DeltasAfter(entities, cs)))
    decreases |cs|
  {
    if cs != [] {
      var pre := cs[..|cs| - 1];
      PassClearsExactlySent(entities, pre);
      var before := EntitiesAfter(entities, pre);
      var d := Delta(before, cs[|cs| - 1]);
      var ds := DeltasAfter(entities, cs);
      assert ds[..|ds| - 1] == DeltasAfter(entities, pre);
      ClearDirtyTwice(entities, UnionOf(DeltasAfter(entities, pre)), d);
    }
  }

  /** The pointwise reading of PassClearsExactlySent. */
  lemma PassFlags(entities: map<EntityId, EntityState>, cs: seq<ClientInterest>, id: EntityId)
    requires id in entities
    ensures id in EntitiesAfter(entities, cs)
    ensures EntitiesAfter(entities, cs)[id].dirty
        <==> entities[id].dirty && forall k :: 0 <= k < |cs| ==> id !in DeltasAfter(entities, cs)[k]
  {
    PassClearsExactlySent(entities, cs);
  }

  /**
   * Every entity placed in a delta is clean for every later client of the
   * same pass, so a later client receives it only if it has not seen it.
   */
  lemma {:induction false} LaterClientSeesClean(entities: map<EntityId, EntityState>, cs: seq<ClientInterest>, k: nat, m: nat, id: EntityId)
    requires k < m <= |cs|
    requires id in DeltasAfter(entities, cs)[k]
    ensures id in EntitiesAfter(entities, cs[..m]) && !EntitiesAfter(entities, cs[..m])[id].dirty
    decreases m
  {
    assert cs[..m][..m - 1] == cs[..m - 1];
    if k == m - 1 {
      assert DeltasAfter(entities, cs)[k] == DeltasAfter(entities, cs[..m])[k] by {
        PrefixDeltas(entities, cs, m);
      }
    } else {
      LaterClientSeesClean(entities, cs, k, m - 1, id);
    }
  }

  /** Consequence: an entity reaches two clients of one pass only if the later one had not seen it. */
  lemma PickedUpOnce(entities: map<EntityId, EntityState>, cs: seq<ClientInterest>, k: nat, m: nat, id: EntityId)
    requires k < m < |cs|
    requires id in DeltasAfter(entities, cs)[k] && id in DeltasAfter(entities, cs)[m]
    ensures id !in cs[m].visibleEntities
  {
    LaterClientSeesClean(entities, cs, k, m, id);
    PrefixDeltas(entities, cs, m + 1);
    assert cs[..m + 1][..m] == cs[..m];
  }

  /** The deltas of a prefix of the clients are a prefix of the deltas. */
  lemma {:induction false} PrefixDeltas(entities: map<EntityId, EntityState>, cs: seq<ClientInterest>, m: nat)
    requires m <= |cs|
    ensures forall k :: 0 <= k < m ==> DeltasAfter(entities, cs[..m])[k] == DeltasAfter(entities, cs)[k]
    decreases |cs|
  {
    if m < |cs| {
      var pre := cs[..|cs| - 1];
      PrefixDeltas(entities, pre, m);
      assert pre[..m] == cs[..m];
    } else {
      assert cs[..m] == cs;
    }
  }

  /** An entity below the 0.40 floor reaches no client and is visible to none. */
  lemma {:induction false} FloorHidesEverywhere(entities: map<EntityId, EntityState>, cs: seq<ClientInterest>, id: EntityId)
    requires id in entities && entities[id].snapshot.valence < 0.40
    ensures forall k :: 0 <= k < |cs| ==> id !in DeltasAfter(entities, cs)[k]
    ensures forall k :: 0 <= k < |cs| ==> id !in WithViews(entities, cs)[k].visibleEntities
    decreases |cs|
  {
    if cs != [] {
      var pre := cs[..|cs| - 1];
      FloorHidesEverywhere(entities, pre, id);
      PassKeepsSnapshots(entities, pre);
      assert forall k :: 0 <= k < |pre| ==> DeltasAfter(entities, cs)[k] == DeltasAfter(entities, pre)[k];
    }
  }

  /** The filter's scenarios: 0.35 is hidden from all; 0.55 is hidden from 0.65 and shown to 0.75. */
  lemma FilterScenarios(clientValence: real)
    ensures Hidden(0.35, clientValence)
    ensures Hidden(0.55, 0.65) && !Hidden(0.55, 0.75)
    ensures !Hidden(0.60, clientValence)
  {
  }

  /** A client of valence 0.8 at the origin: an entity 260 away is included, one 280 away is not. */
  lemma AoiScenario(s: EntitySnapshot, t: EntitySnapshot)
    requires s.position == Vec3Ser(260.0, 0.0, 0.0) && s.valence == 0.9
    requires t.position == Vec3Ser(280.0, 0.0, 0.0) && t.valence == 0.9
    ensures var c := NewClientInterest(1, Vec3(0.0, 0.0, 0.0), 0.8);
      Qualifies(EntityState(s, false), c) && !Qualifies(EntityState(t, false), c)
  {
    var c := NewClientInterest(1, Vec3(0.0, 0.0, 0.0), 0.8);
    RadiusAtPointEight(c);
  }

  /**
   * The dirty flag is global, so when two clients already see a changed
   * entity only the first client of the pass receives the change.
   */
  lemma SecondViewerMissesChange(s: EntitySnapshot)
    requires s.position == Vec3Ser(0.0, 0.0, 0.0) && s.valence == 0.9
    ensures var a := ClientInterest(1, Vec3(0.0, 0.0, 0.0), 0.8, {s.id});
            var b := ClientInterest(2, Vec3(0.0, 0.0, 0.0), 0.8, {s.id});
            var ds := DeltasAfter(map[s.id := EntityState(s, true)], [a, b]);
            ds[0] == {s.id} && ds[1] == {}
  {
    var a := ClientInterest(1, Vec3(0.0, 0.0, 0.0), 0.8, {s.id});
    var b := ClientInterest(2, Vec3(0.0, 0.0, 0.0), 0.8, {s.id});
    var e := map[s.id := EntityState(s, true)];
    assert [a, b][..1] == [a];
    assert [a][..0] == [];
    assert Qualifies(e[s.id], a);
    assert Delta(e, a) == {s.id};
    var e1 := ClearDirty(e, {s.id});
    assert e1 == map[s.id := EntityState(s, false)];
    assert Delta(e1, b) == {};
  }

  /**
   * `broadcast_aoi_deltas` keeps an entity that the filter hides but that is
   * still in range; `replicate_with_aoi` drops it.
   */
  lemma BroadcastKeepsFilteredEntity(s: EntitySnapshot)
    requires s.position == Vec3Ser(0.0, 0.0, 0.0) && s.valence == 0.3
    ensures var c := ClientInterest(1, Vec3(0.0, 0.0, 0.0), 0.8, {s.id});
            var e := map[s.id := EntityState(s, false)];
            s.id in BroadcastView(e, c) && s.id !in VisibleNow(e, c)
  {
    var c := ClientInterest(1, Vec3(0.0, 0.0, 0.0), 0.8, {s.id});
    var e := map[s.id := EntityState(s, false)];
    assert InAoi(e[s.id], c);
  }

  /** Both passes send the same deltas; the broadcast view contains the replicated one. */
  lemma BroadcastViewContainsVisible(entities: map<EntityId, EntityState>, c: ClientInterest)
    ensures VisibleNow(entities, c) <= BroadcastView(entities, c) + c.visibleEntities
    ensures Delta(entities, c) <= BroadcastView(entities, c)
  {
  }

  function FindClient(cs: seq<ClientInterest>, id: ClientId): (r: Option<nat>)
    ensures r.Some? ==> r.value < |cs| && cs[r.value].clientId == id
    ensures r.None? ==> forall k :: 0 <= k < |cs| ==> cs[k].clientId != id
    decreases |cs|
  {
    if cs == [] then None
    else if cs[|cs| - 1].clientId == id then Some(|cs| - 1)
    else FindClient(cs[..|cs| - 1], id)
  }

  datatype SpawnError = ValenceUnavailable | LowValence(valence: real)

  // ─── The server ──────────────────────────────────────────────────────

  class WorldServer {
    var zones: map<ZoneId, Zone>
    var entities: map<EntityId, EntityState>
    /** The session table, in a fixed order so that a pass is deterministic. */
    var clients: seq<ClientInterest>
    var lastTick: real
    var lastReplication: real

    /** Client ids are distinct and clients see only existing entities. */
    ghost predicate Valid()
      reads this
    {
      && (forall i, j :: 0 <= i < j < |clients| ==> clients[i].clientId != clients[j].clientId)
      && (forall i :: 0 <= i < |clients| ==> clients[i].visibleEntities <= entities.Keys)
    }

    /** `WorldServer::new`; the clock reading is passed in. */
    constructor (now: real)
      ensures Valid()
      ensures zones == map[] && entities == map[] && clients == []
      ensures lastTick == now && lastReplication == now
    {
      zones := map[];
      entities := map[];
      clients := [];
      lastTick := now;
      lastReplication := now;
    }

    /** `mark_nearby_dirty`: a loop over the entity map. */
    method MarkNearbyDirty(p: Vec3)
      modifies this`entities
      ensures entities == MarkNear(old(entities), p)
    {
      ghost var e0 := entities;
      var remaining := entities.Keys;
      while remaining != {}
        invariant remaining <= e0.Keys && entities.Keys == e0.Keys
        invariant forall id :: id in e0 ==>
          entities[id] == if id in remaining || !Near(e0[id], p) then e0[id] else MarkDirty(e0[id])
        decreases remaining
      {
        var id :| id in remaining;
        var entity := entities[id];
        if DistSq(FromSer(entity.snapshot.position), p) < NEARBY_RADIUS * NEARBY_RADIUS {
          entities := entities[id := MarkDirty(entity)];
        }
        remaining := remaining - {id};
      }
    }

    /** The node loop of `tick` for one zone. */
    method TickZone(z: ZoneId, delta: real)
      requires z in zones
      modifies this`zones, this`entities
      ensures zones == old(zones)[z := old(zones)[z].(nodes := TickNodes(old(zones)[z].nodes, delta))]
      ensures entities == MarkAll(old(entities), NodeSites(old(zones)[z].nodes, delta))
    {
      ghost var e0 := entities;
      var zone := zones[z];
      var nodes := zone.nodes;
      var j := 0;
      MarkAllNone(e0);
      while j < |nodes|
        invariant 0 <= j <= |nodes| == |zone.nodes|
        invariant forall k :: 0 <= k < j ==> nodes[k] == BloomNode(zone.nodes[k], delta)
        invariant forall k :: j <= k < |nodes| ==> nodes[k] == zone.nodes[k]
        invariant entities == MarkAll(e0, NodeSites(zone.nodes[..j], delta))
        invariant zones == old(zones)
      {
        var node := nodes[j];
        NodeSitesStep(zone.nodes, j, delta);
        if node.yieldRemaining > 0 {
          var timer := node.bloomTimer + delta;
          if timer > BLOOM_PERIOD {
            nodes := nodes[j := node.(yieldRemaining := node.yieldRemaining + 1, bloomTimer := 0.0)];
            MarkAllThenNear(e0, NodeSites(zone.nodes[..j], delta), node.position);
            MarkNearbyDirty(node.position);
          } else {
            nodes := nodes[j := node.(bloomTimer := timer)];
          }
        }
        j := j + 1;
      }
      assert zone.nodes[..j] == zone.nodes;
      assert nodes == TickNodes(zone.nodes, delta);
      zones := zones[z := zone.(nodes := nodes)];
    }

    /** The zone loop of `tick`: every node of every zone, then the marking around each bloom. */
    method TickAllZones(delta: real)
      modifies this`zones, this`entities
      ensures zones == TickZones(old(zones), delta)
      ensures entities == MarkAll(old(entities), BloomSites(old(zones), delta))
    {
      ghost var z0 := zones;
      ghost var e0 := entities;
      ghost var done: set<ZoneId> := {};
      var remaining := zones.Keys;
      MarkAllNone(e0);
      while remaining != {}
        invariant remaining + done == z0.Keys && remaining !! done
        invariant zones.Keys == z0.Keys
        invariant forall z :: z in z0 ==>
          zones[z] == if z in done then z0[z].(nodes := TickNodes(z0[z].nodes, delta)) else z0[z]
        invariant entities == MarkAll(e0, ZoneSites(z0, done, delta))
        decreases remaining
      {
        var z :| z in remaining;
        TickZone(z, delta);
        MarkAllTwice(e0, ZoneSites(z0, done, delta), NodeSites(z0[z].nodes, delta));
        ZoneSitesStep(z0, done, z, delta);
        done := done + {z};
        remaining := remaining - {z};
      }
      assert done == z0.Keys;
    }

    /** One client's turn in a pass: the entity loop of `replicate_with_aoi`. */
    method ReplicateClient(c: ClientInterest) returns (visibleNow: set<EntityId>, delta: set<EntityId>)
      modifies this`entities
      ensures visibleNow == VisibleNow(old(entities), c)
      ensures delta == Delta(old(entities), c)
      ensures entities == ClearDirty(old(entities), delta)
    {
      ghost var e0 := entities;
      var aoiRadius := c.CurrentAoiRadius();
      var remaining := entities.Keys;
      visibleNow, delta := {}, {};
      while remaining != {}
        invariant remaining <= e0.Keys && entities.Keys == e0.Keys
        invariant forall id :: id in visibleNow <==> id in e0 && id !in remaining && Qualifies(e0[id], c)
        invariant forall id :: id in delta <==>
          id in e0 && id !in remaining && Qualifies(e0[id], c) && (e0[id].dirty || id !in c.visibleEntities)
        invariant forall id :: id in e0 ==>
          entities[id] == if id in delta then e0[id].(dirty := false) else e0[id]
        decreases remaining
      {
        var id :| id in remaining;
        var entity := entities[id];
        remaining := remaining - {id};
        var dist := DistSq(FromSer(entity.snapshot.position), c.position);
        if !Hidden(entity.snapshot.valence, c.valence) && dist <= aoiRadius * aoiRadius {
          visibleNow := visibleNow + {id};
          if entity.dirty || id !in c.visibleEntities {
            delta := delta + {id};
            entities := entities[id := entity.(dirty := false)];
          }
        }
      }
    }

    /**
     * `replicate_with_aoi`: each client in turn receives its delta, the
     * flags of what it received are cleared, and its visible set is replaced
     * by the ids that qualified in this pass.
     */
    method ReplicateWithAoi() returns (deltas: seq<set<EntityId>>)
      requires Valid()
      modifies this
      ensures Valid()
      ensures zones == old(zones) && lastTick == old(lastTick) && lastReplication == old(lastReplication)
      ensures entities == EntitiesAfter(old(entities), old(clients))
      ensures deltas == DeltasAfter(old(entities), old(clients))
      ensures clients == WithViews(old(entities), old(clients))
    {
      ghost var e0 := entities;
      ghost var c0 := clients;
      var i := 0;
      deltas := [];
      while i < |clients|
        invariant 0 <= i <= |clients| == |c0|
        invariant zones == old(zones) && lastTick == old(lastTick) && lastReplication == old(lastReplication)
        invariant entities == EntitiesAfter(e0, c0[..i])
        invariant deltas == DeltasAfter(e0, c0[..i])
        invariant forall k :: 0 <= k < i ==> clients[k] == c0[k].(visibleEntities := VisibleNow(e0, c0[k]))
        invariant forall k :: i <= k < |clients| ==> clients[k] == c0[k]
      {
        var c := clients[i];
        var visibleNow, delta := ReplicateClient(c);
        VisibleIgnoresFlags(e0, c0[..i], c);
        PassStep(e0, c0, i);
        clients := clients[i := c.(visibleEntities := visibleNow)];
        deltas := deltas + [delta];
        i := i + 1;
      }
      assert c0[..i] == c0;
      PassKeepsSnapshots(e0, c0);
    }

    /**
     * One client's turn in the earlier `broadcast_aoi_deltas`: the same delta
     * and flags as ReplicateClient, then the ids now out of range leave the
     * visible set (the filter is not consulted for removal).
     */
    method BroadcastClient(c: ClientInterest) returns (delta: set<EntityId>, view: set<EntityId>)
      requires c.visibleEntities <= entities.Keys
      modifies this`entities
      ensures delta == Delta(old(entities), c)
      ensures entities == ClearDirty(old(entities), delta)
      ensures view == BroadcastView(old(entities), c)
    {
      ghost var e0 := entities;
      // The source inserts each picked-up id into the visible set as it goes;
      // that insertion affects only the id just handled, so the delta and the
      // flags are those of ReplicateClient.
      var _, d := ReplicateClient(c);
      delta := d;
      var seen := c.visibleEntities + delta;
      var leftAoi := set id | id in seen && !InAoi(entities[id], c);
      view := seen - leftAoi;
      assert forall id :: id in e0 ==> entities[id].snapshot == e0[id].snapshot;
    }

    /**
     * The earlier `broadcast_aoi_deltas`: the same deltas and flags, but only
     * entities now out of range leave the visible set.
     */
    method BroadcastAoiDeltas() returns (deltas: seq<set<EntityId>>)
      requires Valid()
      modifies this
      ensures Valid()
      ensures zones == old(zones) && lastTick == old(lastTick) && lastReplication == old(lastReplication)
      ensures entities == EntitiesAfter(old(entities), old(clients))
      ensures deltas == DeltasAfter(old(entities), old(clients))
      ensures clients == Broadcasted(old(entities), old(clients))
    {
      ghost var e0 := entities;
      ghost var c0 := clients;
      ghost var b := Broadcasted(e0, c0);
      var i := 0;
      deltas := [];
      while i < |clients|
        invariant 0 <= i <= |clients| == |c0|
        invariant zones == old(zones) && lastTick == old(lastTick) && lastReplication == old(lastReplication)
        invariant entities == EntitiesAfter(e0, c0[..i])
        invariant deltas == DeltasAfter(e0, c0[..i])
        invariant forall k :: 0 <= k < i ==> clients[k] == b[k]
        invariant forall k :: i <= k < |clients| ==> clients[k] == c0[k]
      {
        var c := clients[i];
        PassKeepsSnapshots(e0, c0[..i]);
        var delta, view := BroadcastClient(c);
        PassStep(e0, c0, i);
        assert c.(visibleEntities := view) == b[i];
        clients := clients[i := c.(visibleEntities := view)];
        deltas := deltas + [delta];
        i := i + 1;
      }
      assert c0[..i] == c0;
      PassKeepsSnapshots(e0, c0);
      BroadcastedViewsInDomain(e0, c0);
    }

    /**
     * `tick`: with the core inactive only the clock advances; otherwise the
     * nodes bloom, entities near each bloom are marked dirty, and a
     * replication pass runs when 100 ms have passed since the last one.
     */
    method Tick(now: real, coreActive: bool) returns (deltas: Option<seq<set<EntityId>>>)
      requires Valid()
      modifies this
      ensures Valid()
      ensures lastTick == now
      ensures !coreActive ==>
        && zones == old(zones) && entities == old(entities) && clients == old(clients)
        && lastReplication == old(lastReplication) && deltas == None
      ensures coreActive ==> zones == TickZones(old(zones), Elapsed(old(lastTick), now))
      ensures coreActive ==>
        var marked := MarkAll(old(entities), BloomSites(old(zones), Elapsed(old(lastTick), now)));
        if Elapsed(old(lastReplication), now) >= REPLICATION_RATE then
          && entities == EntitiesAfter(marked, old(clients))
          && clients == WithViews(marked, old(clients))
          && deltas == Some(DeltasAfter(marked, old(clients)))
          && lastReplication == now
        else
          && entities == marked && clients == old(clients)
          && deltas == None && lastReplication == old(lastReplication)
    {
      var delta := Elapsed(lastTick, now);
      lastTick := now;
      if !coreActive {
        return None;
      }
      TickAllZones(delta);
      if Elapsed(lastReplication, now) >= REPLICATION_RATE {
        var ds := ReplicateWithAoi();
        deltas := Some(ds);
        lastReplication := now;
      } else {
        deltas := None;
      }
    }

    /** `add_client`: inserts, or replaces the session with the same id. */
    method AddClient(clientId: ClientId, position: Vec3, valence: real)
      requires Valid()
      modifies this`clients
      ensures Valid()
      ensures var added := NewClientInterest(clientId, position, valence);
        match FindClient(old(clients), clientId)
        case Some(k) => clients == old(clients)[k := added]
        case None => clients == old(clients) + [added]
    {
      var c := NewClientInterest(clientId, position, valence);
      match FindClient(clients, clientId)
      case Some(k) => clients := clients[k := c];
      case None => clients := clients + [c];
    }

    /** `update_client_position`: an unknown client changes nothing. */
    method UpdateClientPosition(clientId: ClientId, position: Vec3, valence: real)
      requires Valid()
      modifies this`clients, this`entities
      ensures Valid()
      ensures match FindClient(old(clients), clientId)
        case Some(k) =>
          && clients == old(clients)[k := old(clients)[k].(position := position, valence := valence)]
          && entities == MarkNear(old(entities), position)
        case None => clients == old(clients) && entities == old(entities)
    {
      match FindClient(clients, clientId)
      case Some(k) =>
        clients := clients[k := clients[k].(position := position, valence := valence)];
        MarkNearbyDirty(position);
      case None =>
    }

    /**
     * `add_entity`: the computed valence is passed in (None when the
     * valence computation fails); a spawn below 0.60 is refused.
     */
    method AddEntity(snapshot: EntitySnapshot, computedValence: Option<real>) returns (err: Option<SpawnError>)
      requires Valid()
      modifies this`entities
      ensures Valid()
      ensures computedValence.None? ==> err == Some(ValenceUnavailable) && entities == old(entities)
      ensures computedValence.Some? && computedValence.value < SPAWN_VALENCE ==>
        err == Some(LowValence(computedValence.value)) && entities == old(entities)
      ensures computedValence.Some? && computedValence.value >= SPAWN_VALENCE ==>
        err == None && entities == old(entities)[snapshot.id := NewEntityState(snapshot)]
    {
      if computedValence.None? {
        return Some(ValenceUnavailable);
      }
      var valence := computedValence.value;
      if valence < SPAWN_VALENCE {
        return Some(LowValence(valence));
      }
      entities := entities[snapshot.id := NewEntityState(snapshot)];
      err := None;
    }
  }
}
