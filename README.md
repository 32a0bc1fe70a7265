# Powrush-MMO core, modelled in Dafny

This project models the logic core of Powrush-MMO, a multiplayer game built on Bevy.

The **world server** is the authoritative simulation:
- entities carry a dirty flag;
- zones hold resource nodes that bloom on a 60-second timer;
- at most every 100 ms, the server computes for every connected client a delta of the entities in its area of interest (AOI). The current `replicate_with_aoi` only builds and logs that update; the older `broadcast_aoi_deltas` enqueues it on the client's send queue.

The AOI radius grows with the client's valence, from 150 to 300 units. A two-band "mercy" filter hides low-valence entities. Entities below 0.40 are hidden from everyone. Entities below 0.60 are hidden from every client below 0.70.

Inbound actions pass through three **admission gates**:
- the per-message-kind threshold table of the shared protocol;
- the divine module's `ValenceGate`, a threshold plus a penalty;
- the mercy core's `gate_server_message`, which decodes, scores, refuses below 0.75, and otherwise prefixes a valence proof to the message.

On the client, every inbound **frame** carries a one-byte compression flag.

Three **ledgers** keep track of players:
- a council with grace- and empathy-weighted votes and a top-k election;
- an education-quest registry;
- a resource-based economy with unlock thresholds.

The last part is a set of **gameplay systems**: inventory, crafting, trading, auctions, skill tree, levelling, combat, arena duels, boss phases and mercy flow.

## How the model is built

- Each source file has one module. The files are listed in the table below.
- State that the source updates in place is a `class`. Its fields are Dafny maps and sequences, and each method's `ensures` ties the new state to a specification function of the old state.
- The lemmas state the source's promises about those functions. Examples:
  - every entity placed in a delta is clean for the later clients of the same pass;
  - a replication pass clears exactly the flags of the entities it sent;
  - no bid ever lowers an auction's current bid;
  - attacks never kill a player with positive maximum health.
- Each Bevy system is a method.
  - A `Query<&mut C>` iterated in full is an `array<C>`, updated pointwise in a `for` loop.
  - `get_single_mut` is "the query has exactly one row".
  - `get_mut(entity)` lookups are maps keyed by entity, held as fields of a small class.
  - An event reader is a sequence of events, folded from the oldest.
- Floats are reals, and counters are unbounded integers.
- Rust's float-to-unsigned cast (`as u32`/`as u64`) is `Numerics.AsUnsigned`. It truncates toward zero and sends negatives to 0.
- Bevy's `Timer` is `Engine.Timer` in run-once mode.
- Foreign code is a function-typed parameter that returns `None` where the foreign call fails. This covers bincode, snappy, the soul's `compute_valence` and `ValenceProof` serialization.
- Clock readings, key presses and random draws are parameters.

### Where the code departs from its own notes or evident intent

The source's own comments (for example the checklist at `server/src/world_server.rs:250-261`) describe deltas enqueued per client and a stable tick and replication loop. In the places below the code does something else, or does not compile as written, and the model follows the code or its evident intent, as each item says.

- **The dirty flag is global, not per client.** `replicate_with_aoi` and `broadcast_aoi_deltas` clear it on the first client that picks the entity up. A later client in the same pass that already sees the entity therefore misses the change. The model keeps this behaviour. `World.SecondViewerMissesChange` shows such a case. To make the pass deterministic, the client table is an ordered sequence.
- **`world_server.rs` holds three revisions of one file.**
  - The server is built from the records at lines 22-105, and from `tick` and `mark_nearby_dirty` at 119-160.
  - `tick` replicates through `replicate_with_aoi` at 341-394.
  - `add_client` and `update_client_position` come from 396-410, and `add_entity` from 516-527.
  - The older `broadcast_aoi_deltas` (162-220) is a second method. It differs in what leaves the visible set: only entities out of range do, so filter-hidden entities stay (`World.BroadcastKeepsFilteredEntity`).
- **`tick` calls `mark_nearby_dirty` inside the zone loop.** The source cannot borrow this way. The model marks around every bloomed node, and the marking is order-independent (`World.MarkAllTwice`). The third revision's undefined `ZONE_LOAD_RADIUS` is not used; the radius is `1.5 × BASE_AOI_RADIUS`.
- **`complete_quest` pushes onto `completed_by` through a shared borrow.** The model records the completion as evidently intended.
- **`vote` calls `voting_weight` while it holds a mutable borrow of the proposal** (`game/council.rs:59-60`). The model adds the voter's weight to the chosen side, as evidently intended.
- **`tick` keeps the `mercy_core` lock while it calls `replicate_with_aoi`, which takes the same lock again** (`server/src/world_server.rs:303`, `325`, `342`). This does not borrow-check, and with tokio's non-reentrant `Mutex` it would deadlock on every replication tick. The model runs the pass, as evidently intended; locking is not modelled.
- **Aliasing in the arena and in trades.** A duel of a player with itself, and a trade of a player with itself, are modelled as the sequential updates of one record.
- **Auctions are looked up by casting the auction id to an entity.** The model keys auctions by that id.
- **`gate_server_message` serializes `ServerMessage::ValenceProof`, which the shared protocol does not declare.** The proof's bytes are an abstract parameter.

## Model

| member | source | states |
|---|---|---|
| World.ClientInterest.CurrentAoiRadius | server/src/world_server.rs:44-46 | the radius lies in [150, 300], is 150 for valence ≤ 0 and 300 for valence ≥ 1 |
| World.RadiusMonotone | server/src/world_server.rs:44-46 | a higher valence never gives a smaller radius |
| World.RadiusAtPointEight | server/src/world_server.rs:44-46 | valence 0.8 gives radius 270 |
| World.NewClientInterest | server/src/world_server.rs:33-42 | a new client keeps its id, position and valence and has an empty visible set |
| World.NewEntityState | server/src/world_server.rs:58-64 | a new entity keeps its snapshot and is dirty |
| World.MarkDirty | server/src/world_server.rs:66-68 | marking sets the flag and keeps the snapshot |
| World.Elapsed | server/src/world_server.rs:121 | elapsed time is never negative, and is the difference when the clock moved forward |
| World.BloomNode | server/src/world_server.rs:132-141 | a depleted node is untouched; a live node blooms (one more yield, timer 0) once its timer passes 60, and otherwise accrues delta; id, position and resource type are kept |
| World.BloomNodeInvariant | server/src/world_server.rs:131-142 | with delta ≥ 0, yield never falls, a node is depleted after a tick iff before it, and a timer in [0, 60] stays there |
| World.MarkNear | server/src/world_server.rs:153-160 | `mark_nearby_dirty(p)` keeps every id and snapshot and sets the flag of exactly the entities closer than 225 to p |
| World.MarkAllThenNear | server/src/world_server.rs:131-142 | marking around one more bloom site is marking around the enlarged set of sites |
| World.MarkAllTwice | server/src/world_server.rs:131-142 | marking around two sets of sites, in either order, is marking around their union |
| World.FilterScenarios | server/src/world_server.rs:355 | valence 0.35 is hidden from every client; 0.55 is hidden from 0.65 and shown to 0.75; 0.60 is never hidden |
| World.DeltaMembership | server/src/world_server.rs:359-366 | an entity is in a client's delta iff it exists, passes the filter, lies within the radius and is dirty or not yet seen |
| World.Hidden | server/src/world_server.rs:352-357 | an entity below 0.40 is hidden from everyone, one at or above 0.60 from no one, and for a client at or above 0.70 only the entities below 0.40 are hidden |
| World.Qualifies | server/src/world_server.rs:352-359 | a shown entity has valence at least 0.40, and an entity at or above 0.60 is shown exactly when it is within the radius |
| World.VisibleNow | server/src/world_server.rs:359-360 | the visible set holds only existing entities, each at valence 0.40 or more and within the radius |
| World.Delta | server/src/world_server.rs:362-366 | the delta lies within the visible set and contains every visible entity the client has not seen and every visible dirty one |
| World.PassKeepsSnapshots | server/src/world_server.rs:349-367 | a replication pass keeps every entity id and snapshot; only flags change |
| World.VisibleIgnoresFlags | server/src/world_server.rs:353-360 | the set that qualifies for a client does not depend on the flags cleared earlier in the pass |
| World.PassClearsExactlySent | server/src/world_server.rs:362-366 | the entities after a pass are the entities before it with exactly the flags of the sent ids cleared |
| World.PassFlags | server/src/world_server.rs:362-366 | an entity is dirty after a pass iff it was dirty before and no client's delta contained it |
| World.LaterClientSeesClean | server/src/world_server.rs:365 | an entity in one client's delta is clean for every later client of the same pass |
| World.PickedUpOnce | server/src/world_server.rs:362-366 | an entity reaches two clients of one pass only if the later one had not seen it |
| World.FloorHidesEverywhere | server/src/world_server.rs:355-357 | an entity below valence 0.40 reaches no client's delta and no client's visible set |
| World.AoiScenario | server/src/world_server.rs:345-360 | a 0.8-valence client at the origin includes an entity 260 away and excludes one 280 away |
| World.SecondViewerMissesChange | server/src/world_server.rs:362-366 | with two clients that already see a dirty entity, only the first receives it |
| World.BroadcastKeepsFilteredEntity | server/src/world_server.rs:186-199 | the older pass keeps a filter-hidden entity that is still in range in the visible set; the newer pass drops it |
| World.BroadcastViewContainsVisible | server/src/world_server.rs:179-199 | the older pass's visible set holds the delta and everything that qualifies and was not already seen |
| World.BroadcastedViewsInDomain | server/src/world_server.rs:187-194 | after the older pass every visible id names an existing entity, so the `unwrap` at line 189 cannot fail |
| World.FindClient | server/src/world_server.rs:403 | the client lookup finds an index that holds the id, or reports that none does |
| World.WorldServer.constructor | server/src/world_server.rs:108-117 | a new server has no zones, entities or clients, and both clocks read the given time |
| World.WorldServer.MarkNearbyDirty | server/src/world_server.rs:153-160 | the entity map becomes `MarkNear` of the old one |
| World.WorldServer.TickZone | server/src/world_server.rs:132-141 | one zone's nodes all bloom or accrue, and entities are marked around every node that bloomed |
| World.WorldServer.TickAllZones | server/src/world_server.rs:131-142 | every zone is ticked, and entities are marked around every bloom site of the world |
| World.WorldServer.ReplicateClient | server/src/world_server.rs:349-368 | one client's turn returns the qualifying set and the delta, and clears exactly the delta's flags |
| World.WorldServer.ReplicateWithAoi | server/src/world_server.rs:341-394 | the entities, the deltas and the clients' visible sets are those of the pass; the visible set becomes exactly the ids that qualified |
| World.WorldServer.BroadcastClient | server/src/world_server.rs:165-199 | the older pass's single-client turn: the same delta and flags, then the out-of-range ids leave the view |
| World.WorldServer.BroadcastAoiDeltas | server/src/world_server.rs:162-220 | the older pass: the same deltas and flags as the newer one, with the older rule for the visible set |
| World.WorldServer.Tick | server/src/world_server.rs:298-330 | with the core inactive only `last_tick` changes; otherwise the nodes bloom, entities near blooms are marked, and a pass runs iff 100 ms have elapsed since the last one |
| World.WorldServer.AddClient | server/src/world_server.rs:396-400 | a new session with an empty view is inserted, or replaces the one with the same id |
| World.WorldServer.UpdateClientPosition | server/src/world_server.rs:402-410 | a known client moves and entities near its new position are marked; an unknown id changes nothing |
| World.WorldServer.AddEntity | server/src/world_server.rs:516-527 | a failed valence computation or a valence below 0.60 is refused with no change; otherwise the entity is inserted dirty |
| Protocol.VecRoundTrip | shared/src/protocol.rs:17-27 | `Vec3 → Vec3Ser → Vec3` returns the same x, y, z |
| Protocol.ToSer | shared/src/protocol.rs:17-21 | the wire form converts back to the same vector |
| Protocol.FromSer | shared/src/protocol.rs:23-27 | every coordinate of the wire form is carried over |
| Protocol.VecSerRoundTrip | shared/src/protocol.rs:17-27 | `Vec3Ser → Vec3 → Vec3Ser` is the identity |
| Protocol.RequiredValence | shared/src/protocol.rs:114-121 | a gated kind's threshold lies between 0.60 and 0.85 |
| Protocol.ApplyMercyGate | shared/src/protocol.rs:114-121 | a message is admitted iff its kind is ungated or the valence meets the kind's threshold in the table |
| Protocol.RitualThreshold | shared/src/protocol.rs:116 | a ritual is admitted iff valence ≥ 0.85, the boundary included |
| Protocol.RedemptionAndTradeThresholds | shared/src/protocol.rs:117-118 | redemption is admitted iff valence ≥ 0.70, and a trade offer iff ≥ 0.60 |
| Protocol.OtherKindsAlwaysAdmitted | shared/src/protocol.rs:119 | every other kind is admitted at any valence |
| Protocol.GateMonotone | shared/src/protocol.rs:114-121 | a message admitted at v is admitted at every v' ≥ v |
| Protocol.RitualAdmitsAll | shared/src/protocol.rs:116-119 | a valence that admits a ritual admits every message |
| Numerics.Clamp | game/council.rs:37 | `clamp` lands in [lo, hi], is the identity inside, and gives lo below and hi above |
| Numerics.AsUnsigned | game/council.rs:45 | the float-to-unsigned cast truncates a non-negative value and sends values below 1 to 0 |
| Numerics.AsUnsignedMonotone | src/inventory.rs:50 | the cast keeps the order of its arguments |
| Numerics.AsUnsignedBetween | game/council.rs:45 | a value between two whole numbers casts to a number between them |
| Numerics.AsUnsignedOfWhole | game/council.rs:45 | a whole number casts to itself |
| ValenceGates.ValenceGate.ApplyPenalty | powrush-divine-module/src/valence_gate.rs:16-22 | the penalty is never negative and is 0 iff the score reaches the threshold; when refused, it is half the shortfall and strictly positive |
| ValenceGates.ValenceGate.AllowAction | powrush-divine-module/src/valence_gate.rs:12-14 | an action is allowed exactly when no penalty is due |
| ValenceGates.NewGate | powrush-divine-module/src/valence_gate.rs:8-10 | a new gate keeps its threshold and admits a score equal to it with no penalty |
| ValenceGates.AllowMonotone | powrush-divine-module/src/valence_gate.rs:12-14 | a higher score is never refused where a lower one was allowed |
| ValenceGates.PenaltyAntitone | powrush-divine-module/src/valence_gate.rs:16-22 | the penalty never grows as the score rises |
| ValenceGates.GateScenario | tests/mercy_gate_test.rs:14-18 | with threshold 0.75, 0.85 is allowed, 0.60 is refused, and the penalty at 0.60 is 0.075 |
| MercyCores.NewCore | powrush-divine-module/src/mercy_core.rs:12-17 | a fresh core is active |
| MercyCores.MercyCore.IsActive | powrush-divine-module/src/mercy_core.rs:34-36 | a core is active exactly in the state `new` leaves it in |
| MercyCores.BlockedMessage | powrush-divine-module/src/mercy_core.rs:24 | the refusal text starts with "Mercy gate blocked: " and contains "valence" |
| MercyCores.GateServerMessage | powrush-divine-module/src/mercy_core.rs:19-32 | one error per failing step; success iff decoding, scoring and proof serialization succeed and valence ≥ 0.75; the answer is the proof followed by the original bytes |
| MercyCores.DecodeBeforeScoring | powrush-divine-module/src/mercy_core.rs:20-21 | bytes that do not decode are refused whatever the scorer would say |
| MercyCores.BlockedErrorMentionsValence | powrush-divine-module/src/mercy_core.rs:23-25 | a valence below 0.75 gives a `Blocked` error whose text mentions "valence" |
| MercyCores.GateIgnoresActive | powrush-divine-module/src/mercy_core.rs:19-36 | the gate's answer does not depend on the `active` flag, which it never writes |
| ClientFrames.DecodeFrame | client/src/main.rs:31-53 | empty frames are rejected; flag 0 yields bytes 1.. (length − 1); flag 1 yields their decompression or `DecompressionFailed`; other flags give `InvalidFlag` |
| ClientFrames.RawFrame | client/src/main.rs:48-49 | an uncompressed frame is flag 0 followed by the payload |
| ClientFrames.CompressedFrame | client/src/main.rs:40-47 | a compressed frame is flag 1 followed by the compressed body |
| ClientFrames.RawRoundTrip | client/src/main.rs:48-49 | an uncompressed frame decodes to its payload |
| ClientFrames.CompressedRoundTrip | client/src/main.rs:40-47 | a compressed frame decodes to its payload whenever decompression inverts compression |
| ClientFrames.AcceptedFrameShape | client/src/main.rs:37-53 | every accepted frame is one of the two sender shapes |
| ClientFrames.Handle | client/src/main.rs:55-66 | a frame yields a message iff its flag handling and its deserialization both succeed |
| ClientFrames.Delivered | client/src/main.rs:28-66 | a stream never delivers more messages than it has frames |
| ClientFrames.DeliveredAppend | client/src/main.rs:28-66 | delivery of two stretches of a stream is the delivery of each, in order |
| ClientFrames.DeliveredAllIffNoneFails | client/src/main.rs:28-66 | every frame is delivered iff no frame fails |
| ClientFrames.ReceiveLoop | client/src/main.rs:28-67 | the loop over binary frames forwards exactly `Delivered` of the stream: failures skipped, order kept |
| Council.Weight | game/council.rs:41-46 | the weight is grace·(1 + empathy) truncated to an integer (for empathy ≥ −1); with empathy in [0, 1] it lies in [grace, 2·grace]; it is grace at empathy 0, twice grace at empathy 1, and 0 for no grace |
| Council.ExampleWeights | game/council.rs:107-122 | the example voters weigh 9500, 4500 and 16000 |
| Council.MostGraceExists | game/council.rs:94-97 | a non-empty set of players always has one with the most grace |
| Council.CouncilSystem.constructor | game/council.rs:20-28 | nothing is recorded and proposal ids start at 1 |
| Council.CouncilSystem.AddGrace | game/council.rs:31-33 | the points join the player's total, which starts at 0 |
| Council.CouncilSystem.SetEmpathy | game/council.rs:36-38 | the score is stored clamped to [0, 1] |
| Council.CouncilSystem.VotingWeight | game/council.rs:41-46 | the weight is `Weight` of the player's recorded grace (0 if none) and recorded empathy (1.0 if none); an unknown player weighs 0; a player's weight lies in [grace, 2·grace], and is 2·grace with no empathy record |
| Council.CouncilSystem.SubmitProposal | game/council.rs:49-55 | the id is the counter, unused before; tallies start at 0/0; the counter grows by one |
| Council.CouncilSystem.Vote | game/council.rs:58-71 | an unknown proposal is unchanged; otherwise the voter's weight goes to exactly one side |
| Council.CouncilSystem.ResolveProposal | game/council.rs:74-91 | Some(true) iff for > against; Some(false) iff against > for; None iff tied or unknown |
| Council.CouncilSystem.ElectCouncil | game/council.rs:94-99 | min(seats, players) members, distinct, highest grace first, each with at least the grace of every non-member |
| Education.RewardSumAppend | game/quests/education.rs:120-126 | one more completed quest adds exactly its reward |
| Education.RewardSumReadsRewards | game/quests/education.rs:120-126 | the sum reads only the rewards, so recording completions does not change it |
| Education.ExampleEducationGrace | game/quests/education.rs:139-142 | completing quests 1 and 2 of the catalogue is worth 400 grace |
| Education.CompletionEffect | game/quests/education.rs:101-118 | a first completion keeps every progress list duplicate-free and within the catalogue, raises the completing player's reward sum by the quest's reward, and leaves every other player's sum unchanged |
| Education.QuestSystem.constructor | game/quests/education.rs:35-81 | the five catalogue quests get ids 1-5 with rewards 100, 300, 250, 500 and 600, and the counter ends at 6 |
| Education.QuestSystem.AddQuest | game/quests/education.rs:83-95 | the quest takes the counter's id, which no quest had, and the counter moves on |
| Education.QuestSystem.PlayerGraceFromQuests | game/quests/education.rs:120-126 | an unknown player has earned 0 |
| Education.QuestSystem.CompleteQuest | game/quests/education.rs:101-118 | "Quest not found" and "Quest already completed" change nothing; success appends to progress and `completed_by`, returns the reward, raises that player's quest grace by it, and no one else's; progress never holds a duplicate |
| Rbe.Accrue | game/rbe.rs:42-44 | the player's grace grows by the points from 0 or its old value, and no one else's changes |
| Rbe.UnlockSurvivesAccrual | game/rbe.rs:42-54 | adding anyone's grace never relocks an unlocked item |
| Rbe.Unlocks | game/rbe.rs:47-54 | an unlock needs a known item and grace at least its threshold; with a positive threshold, enough grace suffices |
| Rbe.AccrualReachesThreshold | game/rbe.rs:47-54 | accruing at least an item's threshold unlocks it |
| Rbe.RbeSystem.constructor | game/rbe.rs:17-34 | the basic list and the three thresholds are installed, and no grace is recorded |
| Rbe.RbeSystem.ReplicateBasic | game/rbe.rs:37-39 | true exactly for food, water, shelter, energy and basic_tools |
| Rbe.RbeSystem.AddGrace | game/rbe.rs:42-44 | the grace table becomes `Accrue` of the old one |
| Rbe.RbeSystem.UnlockAdvanced | game/rbe.rs:47-54 | false for an unknown item or a player with no record; otherwise true iff points ≥ 1000, 2000 or 5000 for custom_home, art_studio or personal_vehicle |
| Rbe.RbeSystem.GraceLevel | game/rbe.rs:57-59 | the recorded points, or 0 |
| Rbe.ExampleUsage | game/rbe.rs:63-81 | food replicates; 500 grace neither unlocks the art studio nor exceeds 2000 |
| Engine.Timer.Tick | src/auction.rs:54-55 | ticking never lowers the elapsed time, keeps it within the duration, and finishes the timer iff it was finished or delta reaches the rest |
| Engine.Timer.Finished | src/boss.rs:31 | a well-formed timer is finished exactly when its elapsed time equals its duration |
| Engine.FromSeconds | src/boss.rs:37 | a new timer is well formed, has elapsed 0, and is finished only when its duration is 0 |
| Engine.TickValid | src/auction.rs:54 | ticking keeps a timer well formed |
| Engine.TickTwice | src/auction.rs:54 | two ticks in a row are one tick of their sum |
| Inventories.DefaultInventory | src/inventory.rs:27-31 | the default inventory is empty with capacity 10 |
| Inventories.CapacityFor | src/inventory.rs:50 | capacity is trust·10 truncated, and 0 below trust 0.1 |
| Inventories.CapacityMonotone | src/inventory.rs:49-51 | more trust never shrinks capacity |
| Inventories.InventoryCapacitySystem | src/inventory.rs:46-52 | each row's capacity becomes `CapacityFor` of its trust, and nothing else changes |
| Inventories.DecayItem | src/inventory.rs:60 | decay keeps id, name and rarity and lowers a positive value |
| Inventories.DecayItems | src/inventory.rs:59-62 | the list never grows, every survivor is above 0.1, and every survivor is the decay of an original item |
| Inventories.DecaySurvivors | src/inventory.rs:59-62 | an item survives iff its decayed value is above 0.1 |
| Inventories.DecayAppend | src/inventory.rs:58-63 | decay works item by item, keeping the original order |
| Inventories.DecaySingle | src/inventory.rs:59-62 | a single item is kept decayed, or dropped |
| Inventories.ItemDecaySystem | src/inventory.rs:54-64 | every inventory's items become `DecayItems` of the old ones |
| Inventories.RarityOf | src/inventory.rs:76-81 | 0-79 Common, 80-94 Rare, 95-98 Epic, the rest Legendary, each as an iff |
| Inventories.RarityMonotone | src/inventory.rs:76-81 | a higher roll never gives a lower rarity |
| Inventories.GeneratedItem | src/inventory.rs:73-83 | the generated item has the drawn id, rarity and value |
| Inventories.ItemGenerationSystem | src/inventory.rs:66-87 | at most one item is added per inventory, and only when below capacity and the draw says so; capacity is unchanged |
| Inventories.ItemInteractionSystem | src/inventory.rs:89-108 | with the key pressed and one inventory, the last item is popped and used; an empty inventory is unchanged |
| Crafting.MercySword | src/crafting.rs:27-32 | the crafted item is an Epic "Mercy Sword" with the drawn id, worth exactly the first input plus 1.5 times the second, hence at least the first for non-negative inputs |
| Crafting.Crafted | src/crafting.rs:24-33 | below two items, nothing changes; otherwise the list has n − 1 items, the rest keep their order, the sword is last, and as a multiset the two inputs are replaced by the sword |
| Crafting.CraftedLength | src/crafting.rs:24-33 | crafting shrinks the list by one exactly when there were two inputs |
| Crafting.CraftingSystem | src/crafting.rs:18-38 | with the key pressed and one inventory, its items become `Crafted` of the old ones; nothing changes otherwise |
| Trading.SwapRemove | src/trading.rs:28 | one shorter; the last element fills the hole; other positions unchanged; the multiset loses exactly the removed element |
| Trading.Position | src/trading.rs:27 | the first index holding the id, or None iff none does |
| Trading.Credit | src/trading.rs:31-36 | a party with a trust record has it multiplied by 1.1; others are unchanged |
| Trading.NoItemNoChange | src/trading.rs:26-27 | a sender without an inventory or without the item changes nothing |
| Trading.TransferConserves | src/trading.rs:27-36 | between two players with inventories, one item moves to the end of the recipient's list; item count and multiset are conserved; both trusts grow by 1.1 |
| Trading.MissingRecipientLosesItem | src/trading.rs:28-29 | with no recipient inventory the item leaves the sender and is not restored, and no trust changes |
| Trading.TradeAll | src/trading.rs:25-41 | a frame of trades never adds or removes an inventory or a trust record, and never lowers a non-negative trust |
| Trading.Trade | src/trading.rs:25-40 | one trade keeps every inventory and trust key, never lowers a non-negative trust, and changes no inventory but the two parties' |
| Trading.TradeSystem.TradeOnce | src/trading.rs:26-40 | the records updated in program order give exactly `Trade` of the old ledger |
| Trading.TradeSystem.PlayerTradeSystem | src/trading.rs:20-41 | the ledger becomes `TradeAll` of the frame's events, oldest first |
| Auctions.Bid | src/auction.rs:34-45 | a bid keeps every auction and trust record and never lowers a current bid |
| Auctions.LowBidIgnored | src/auction.rs:36 | an equal or lower bid, or an unknown auction, changes nothing |
| Auctions.WinningBid | src/auction.rs:36-41 | a winning bid sets the current bid and the highest bidder, keeps the item and the timer, and credits only the bidder (×1.05) |
| Auctions.BidsNeverLower | src/auction.rs:34-45 | over any sequence of bids no auction's current bid falls |
| Auctions.Expiring | src/auction.rs:53-55 | only existing auctions expire |
| Auctions.AfterTick | src/auction.rs:53-61 | exactly the auctions that did not finish remain |
| Auctions.ExpiryIgnoresBidder | src/auction.rs:54-60 | an auction is despawned whether or not it has a winner |
| Auctions.AuctionHouse.AuctionBidSystem | src/auction.rs:29-46 | the house becomes `BidAll` of the frame's bids |
| Auctions.AuctionHouse.AuctionTimerSystem | src/auction.rs:48-63 | every timer ticks; the finished auctions are returned and removed |
| SkillTrees.Accrue | src/skill_tree.rs:36 | points grow by the truncated seconds, never fall, and are unchanged below one second; levels are untouched |
| SkillTrees.Upgrade | src/skill_tree.rs:47-50 | with points, one point becomes a trust level; with none, nothing changes; points + trust is conserved; other branches are untouched |
| SkillTrees.UpgradeTimes | src/skill_tree.rs:45-53 | n upgrades spend min(n, points) points and conserve points + trust |
| SkillTrees.SkillPointSystem | src/skill_tree.rs:31-38 | every tree becomes `Accrue` of itself |
| SkillTrees.SkillUiSystem | src/skill_tree.rs:40-54 | with the key pressed and one tree, it is upgraded; nothing changes otherwise |
| Leveling.Gain | src/leveling.rs:24-30 | level rises by at most one, iff experience + 10·dt reaches the threshold; a level-up resets experience and multiplies the threshold by 1.5; otherwise experience stays below the threshold |
| Leveling.GainKeepsBelowThreshold | src/leveling.rs:24-28 | with a positive threshold, experience is below it after every frame |
| Leveling.LevelsPerFrame | src/leveling.rs:23-31 | over n frames the level never falls and rises by at most n |
| Leveling.LevelingSystem | src/leveling.rs:19-32 | every player becomes `Gain` of itself |
| Combat.Hit | src/combat.rs:30-35 | the target loses 10 health, or, at 0 or below, respawns at full health with 50 more shield; health is positive when max health is |
| Combat.Attack | src/combat.rs:29-36 | only the target changes, and only if it is a combat player |
| Combat.AttackAll | src/combat.rs:28-37 | attacks keep the set of players |
| Combat.AttacksNeverKill | src/combat.rs:28-37 | a player with positive maximum health survives any sequence of attacks |
| Combat.UntargetedUnchanged | src/combat.rs:28-37 | a player never targeted keeps its record |
| Combat.Regenerate | src/combat.rs:45-46 | the shield ends at most 100, never drops from ≤ 100 when dt ≥ 0, grows by exactly 20·dt below the cap, and is exactly 100 when the regenerated value reaches the cap; health and cooldown are kept |
| Combat.CombatWorld.CombatAttackSystem | src/combat.rs:24-38 | the players become `AttackAll` of the frame's attacks |
| Combat.CombatWorld.MercyShieldSystem | src/combat.rs:40-48 | every player becomes `Regenerate` of itself |
| Arena.Duel | src/arena.rs:26-41 | a duel needs both players, else changes nothing; afterwards both shields are positive; health and bystanders are untouched |
| Arena.DuelShields | src/arena.rs:30-39 | between two players each loses 10 shield, or is restored to 100 when that empties it |
| Arena.DuelAll | src/arena.rs:26-42 | duels keep the set of players |
| Arena.DuelsKeepHealth | src/arena.rs:26-42 | no sequence of duels changes any health |
| Arena.ArenaWorld.ArenaDuelSystem | src/arena.rs:22-43 | the players become `DuelAll` of the frame's duels |
| Arena.ArenaWorld.DuelOnce | src/arena.rs:27-40 | each event's body turns the players into `Duel` of them |
| Bosses.PhaseStep | src/boss.rs:30-38 | an unfinished timer only ticks; a finished one gives the next phase with 1.5× max health, full health, an event with the new phase and a fresh 60 s timer; phase never falls |
| Bosses.NewPhaseTimerFresh | src/boss.rs:37 | after a phase change, less than 60 s does not finish the timer again |
| Bosses.PhaseEffectOf | src/boss.rs:47-60 | phase 1 is the mercy wave, phase 2 the lattice storm, any other the eternal bloom, each as an iff |
| Bosses.PhaseEffects | src/boss.rs:46-61 | one effect per event, in order |
| Bosses.BossPhaseSystem | src/boss.rs:24-40 | every boss steps, and the events sent are those of the bosses in query order |
| Bosses.PhaseEvents | src/boss.rs:29-39 | a frame sends at most one event per boss |
| Bosses.PhaseEventsPositive | src/boss.rs:32-35 | every event is the phase some boss of the frame has just entered, one past its old phase, so no event announces phase 0 |
| MercyFlow.Allocation | src/mercy.rs:14 | the allocation is min(need·dt, points) |
| MercyFlow.AfterAllocation | src/mercy.rs:14-15 | points never go negative; they become 0 when need·dt ≥ points, and fall by exactly need·dt otherwise |
| MercyFlow.MercyFlowSystem | src/mercy.rs:9-18 | each row's points fall by its allocation, the need is kept, and no row goes negative |

## Left out

- Networking and concurrency:
  - the TCP/WebSocket loops and the tokio `mpsc` send queue;
  - the `Arc<Mutex<MercyCore>>` locking;
  - replicon replication;
  - in the client, non-binary messages and connection close or errors; only the binary-frame branch of the receive loop is modelled, and `handle_server_message` only logs.
- Serialization of `ServerMessage::WorldUpdate`. The update built from a delta is only serialized and logged or sent. The model returns the deltas as sets of entity ids, since the order the source gives them, a hash map's iteration order, is unspecified.
- `Instant` fields, each replaced by a clock reading passed in:
  - a client's `last_sync`;
  - an entity's `last_sent`;
  - the timestamp of an update.
- Creatures in a zone are carried as data. No revision of `tick` updates them.
- The third revision's `replicate_dirty_entities`, a global placeholder that never sends.
- The third revision's `tick` and `mark_nearby_dirty`, which use the undefined `ZONE_LOAD_RADIUS`.
- `list_available` in the quest registry, an unordered listing of a hash map's values.
- `trading_ui_system`, `auction_house_system` and the dangling fragment after `player_trade_system`: presentation and a fragment.
- `SkillUpgradeEvent` and `SkillBranch` are declared in the source but no system uses them.
- All logging (`info!`, `warn!`, `println!`). `boss_phase_effects` is modelled as the effect each event announces.
- Particles and text spawned when an item is used.
- Randomness. Item generation's 5%-per-second chance, id, name number, rarity roll and value are parameters (`Inventories.Draw`). So is the random id of a crafted item.
- Inventories.ItemGenerationSystem: does not model the panic of `rng.gen_bool(0.05 * dt)` when the frame is longer than 20 s, so that the probability exceeds 1; the spawn draw is a free boolean.
- Bevy's repeating timer mode. Every timer here is created in run-once mode.
- Engine.Timer.Finished: reads the elapsed time, not Bevy's flag that only `tick` sets, so a fresh zero-length timer counts as finished before its first tick (as `Engine.FromSeconds` states); every modelled system ticks a timer before reading it, so the difference cannot be observed here.
- Numerics.AsUnsigned: does not model the cast's saturation at the integer type's maximum, because counters are unbounded.
- Council.Weight: does not model f64 rounding of `grace as f64 * (1.0 + empathy)`; reals stand for floats.
- World.WorldServer.BroadcastAoiDeltas: does not model the early `Err` return of `bincode::serialize(&update)?` in the middle of the client loop, which would leave later clients unprocessed after earlier clients' flags were cleared; serialization is not modelled and the pass always completes.
- Integer overflow of the `u32`/`u64` counters (yield, points, levels, ids, grace), and f32 rounding.
- World.ClientInterest.CurrentAoiRadius: a NaN valence is not modelled; reals have none.
