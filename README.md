# Bazooka in Dafny

This project models the core of Bazooka, a multiplayer voxel shooter written
in TypeScript and JavaScript, and proves properties of that model. The core
covers these parts:

- **The voxel world.** The chunk list and chunk table of `World`, the voxel
  type table with its lookups, and the 32-bit arithmetic that aligns a point
  to its chunk.
- **The growable output buffer** and the `nextPow2` it grows by.
- **Physics.** The per-tick step of players, falling blocks and missiles, in
  the shared protocol version and in the legacy client version.
- **The game server.** Lobby, active and completed states, the visibility
  rule, the incremental chunk sync, missiles, and the older `api.js` server
  loop.
- **The browser clients.** The state, the message handlers and the tick of
  the TypeScript client (`bundle.ts`) and of the older JavaScript client
  (`index.js`).
- **Player controls**, including the block-edit commands.
- **Splash screen.** The name filter and the first-error latch.
- **Geometry.** The triangle `Mesh` with its combine and part-transform
  helpers, and the eight-corner `Poly8` with its bounding box and face mesh.

The model keeps the source's form:

- Objects whose fields the source updates in place are classes with
  field-granular `modifies` frames: the world, the buffer, game objects, the
  server game, client states and meshes.
- Loops are methods with invariants. Each is proved against a specification
  function about which the lemmas speak.
- Pure code is functions and lemmas.

JavaScript numbers are modelled as follows:

- Integers where the source uses them as integers, with the 32-bit
  operations (`| 0`, `>>`, `<<`) written out.
- Reals elsewhere. There is no floating-point rounding and no NaN.

Things outside the core become parameters of the model:

- clocks;
- keyboard and mouse input;
- the matrix transforms of gl-matrix;
- random numbers;
- the picker;
- the sockets, which record what is sent.

## Model

| member | source | states |
|---|---|---|
| `Int32.ToInt32` | src/math/bit.ts:2 | v or-ed with 0 lands in the signed 32-bit range |
| `Int32.ToInt32Congruent` | src/math/bit.ts:2 | v or-ed with 0 differs from `v` by a multiple of 2^32 |
| `Int32.ToInt32SameBits` | src/math/bit.ts:2-3 | (v or-ed with 0) - 1 and `v - 1` have the same 32 bits, so the smear can start from the bits of `v - 1` |
| `Int32.SmearAll` | src/math/bit.ts:3-7 | after the five smear steps (v or-ed with v >> s) every bit at or below the top set bit is set |
| `Int32.SmearPositive` | src/math/bit.ts:3-7 | a positive word whose top bit is h < 31 smears to 2^(h+1) - 1 |
| `Int32.SmearNegative` | src/math/bit.ts:3-7 | a negative word smears to all ones, that is -1 |
| `Int32.SmearZero` | src/math/bit.ts:3-7 | zero smears to zero |
| `Bit.NextPow2Least` | src/math/bit.ts:1-9 | for 1 <= v <= 2^31 the result is a power of two p with v <= p < 2v; `nextPow2(2^31)` is 2^31 because the final `+ 1` is not wrapped |
| `Bit.NextPow2Unique` | src/math/bit.ts:1-9 | conversely, any power of two in [v, 2v) is the result |
| `Bit.NextPow2Above` | src/math/bit.ts:1-9 | for 2 <= v <= 2^31 the result is 2^(h+1), where h is the top bit of v - 1 |
| `Bit.NextPow2Fixed` | src/math/bit.ts:1-9 | every power of two up to 2^31 is a fixed point |
| `Bit.NextPow2Wraps` | src/math/bit.ts:1-9 | 0 and every v in (2^31, 2^32] give 0 |
| `Vox.PairTypeDefaults` | src/protocol/vox.ts:14-19 | a type made from a bare tile pair uses it on every face, has side offset 0 and is not opaque |
| `Vox.ObjectTypeDefaults` | src/protocol/vox.ts:20-28 | a type made from an object: a single pair is spread to all faces, face UVs and undefined are kept, the side offset defaults to 0, and it is opaque unless `opaque` is false |
| `Vox.BuildIndex` | src/protocol/vox.ts:69-72 | the `forEach` loop builds exactly the index `IndexOf(types)` |
| `Vox.IndexOfSound` | src/protocol/vox.ts:69-72 | every type name is indexed, and each maps to the last position carrying that name |
| `Vox.IndexOfDistinct` | src/protocol/vox.ts:69-72 | with distinct names the index inverts the table |
| `Vox.TypeNamesDistinct` | src/protocol/vox.ts:43-65 | the 21 type names are pairwise distinct |
| `Vox.NamesDistinctFrom` | src/protocol/vox.ts:43-65 | names of entries lo..lo+6 differ from all later names |
| `Vox.IndexInvertsTypes` | src/protocol/vox.ts:43-72 | `INDEX[TYPES[i].name] == i` for every type; `INDEX.AIR` is 0 and `INDEX.WATER` is 1 |
| `Vox.IsSolid` | src/protocol/vox.ts:75-78 | from off-world (-1) up, a value is solid iff it is not off-world, air or water |
| `Vox.IsOpaque` | src/protocol/vox.ts:81-83 | an opaque value is on-world and its type is opaque |
| `Vox.IsTranslucent` | src/protocol/vox.ts:86-88 | translucent iff the value is 1 (water) |
| `Vox.OpaqueTypes` | src/protocol/vox.ts:43-83 | exactly GRASS (2), CACTUS (14) and STRIPE_WOOD (17) are opaque; STONE and every other bare-pair type is not |
| `Vox.SolidMeansNotAirOrWater` | src/protocol/vox.ts:75-88 | a table entry is solid iff it is neither AIR nor WATER, and translucent iff it is WATER |
| `Chunks.Align` | src/protocol/world.ts:90-92 | `(c >> CB) << CB` on 32-bit values stays in the signed 32-bit range |
| `Chunks.AlignInRange` | src/protocol/world.ts:90-95 | for a 32-bit coordinate the origin is the largest multiple of the chunk size not above it, so the local offset is in [0, CHUNK_SIZE) |
| `Chunks.AlignIdempotent` | src/protocol/world.ts:90-92 | aligning an origin gives the origin back |
| `Chunks.OriginLocalInjective` | src/protocol/world.ts:90-95 | a point is fixed by its origin and local offset |
| `Chunks.Chunk.constructor` | src/protocol/world.ts:105 | a new chunk at the origin is all air, clean and not destroyed |
| `Chunks.Chunk.SetVox` | src/protocol/world.ts:108 | stores one voxel and marks the chunk dirty; nothing else changes |
| `Chunks.Chunk.Destroy` | src/protocol/world.ts:33 | marks the chunk destroyed and keeps its voxels |
| `Worlds.KeptMembers` | src/protocol/world.ts:62-78 | the kept prefix holds exactly the unselected chunks of the prefix |
| `Worlds.KeptCount` | src/protocol/world.ts:62-78 | kept plus removed chunks are all the chunks |
| `Worlds.KeptDistinct` | src/protocol/world.ts:62-78 | removing chunks keeps the origins distinct |
| `Worlds.CountAtKey` | src/protocol/world.ts:14-15 | with the list and table in agreement, an origin of the table has exactly one chunk in the list, and any other origin has none |
| `Worlds.AgreeAppend` | src/protocol/world.ts:20-25 | appending a chunk at a new origin keeps the list and table in agreement |
| `Worlds.AgreeReplace` | src/protocol/world.ts:29-39 | replacing the chunk at an origin keeps the agreement |
| `Worlds.AgreeKept` | src/protocol/world.ts:62-78 | removing the selected chunks from both the list and the table keeps the agreement |
| `Worlds.KeptAtKey` | src/protocol/world.ts:43-50 | removing one origin's chunk removes exactly that list entry |
| `Worlds.RemovedAtKey` | src/protocol/world.ts:43-50 | removing by one origin of the table drops exactly that key |
| `Worlds.Sweep` | src/protocol/world.ts:62-78 | the single compaction pass leaves exactly the unselected chunks in order, deletes exactly the selected keys, and destroys exactly the selected chunks |
| `Worlds.LocalInChunk` | src/protocol/world.ts:90-95 | a 32-bit point's local offset lies inside its chunk |
| `Worlds.World.constructor` | src/protocol/world.ts:14-16 | an empty, consistent world |
| `Worlds.World.AddChunk` | src/protocol/world.ts:20-25 | fails iff the origin is taken, leaving the world as it was; otherwise the list grows by the chunk and the table maps the origin to it; the agreement invariant holds |
| `Worlds.World.ReplaceChunk` | src/protocol/world.ts:29-39 | the table maps the origin to the chunk; a new origin appends; an existing one keeps the length, destroys the old chunk and puts the new one in its slot; other chunks are untouched |
| `Worlds.World.RemoveChunk` | src/protocol/world.ts:43-50 | fails iff the origin is absent; otherwise the chunk is destroyed, the list loses exactly it (keeping order, length - 1), and the key leaves the table |
| `Worlds.World.FindChunkIndex` | src/protocol/world.ts:52-58 | returns the first index whose chunk has the same x, y and z, or fails iff there is none |
| `Worlds.World.RemoveChunks` | src/protocol/world.ts:62-78 | keeps exactly the unselected chunks in order, shrinks by the number selected, removes exactly their keys, and destroys exactly them |
| `Worlds.World.GetChunk` | src/protocol/world.ts:83-86 | finds a chunk iff some list chunk is at that origin, and it is that chunk |
| `Worlds.World.GetVox` | src/protocol/world.ts:89-96 | -1 when no chunk covers the point, otherwise that chunk's voxel at the local offset |
| `Worlds.VoxAt` | src/protocol/world.ts:89-96 | on a snapshot of the chunks' voxels: -1 without a covering chunk, otherwise its voxel or 0 when unset |
| `Worlds.ReadsAsSnapshot` | src/protocol/world.ts:89-96 | `getVox` on a valid world is the read of the snapshot of its chunks |
| `Worlds.World.SetVox` | src/protocol/world.ts:99-109 | afterwards `getVox` at the point reads `v`; other chunks read as before; the rest of a new chunk reads as air; a chunk is appended only when none covers the point; the covering chunk is dirty and no other chunk flag changes |
| `FlexBuffers.Int32LERoundTrip` | src/protocol/flex-buffer.ts:17-21 | the four bytes written for an int32 read back as it |
| `FlexBuffers.ReadInt32LERoundTrip` | src/protocol/flex-buffer.ts:17-21 | every four bytes are the encoding of the number they read as |
| `FlexBuffers.CopiedBytes` | src/protocol/flex-buffer.ts:29-37 | as written: with start 0 the whole array is copied, otherwise the slice from `start` to the offset `len` |
| `FlexBuffers.CopiedBytesShort` | src/protocol/flex-buffer.ts:29-37 | as written, a non-zero start copies fewer than `len` bytes while `n` still advances by `len` |
| `FlexBuffers.CopiedBytesExample` | src/protocol/flex-buffer.ts:29-37 | as written, two bytes from offset 1 of [1, 2, 3, 4] copy only [2] |
| `FlexBuffers.CopiedBytesWhole` | src/protocol/flex-buffer.ts:29-37 | from offset 0 the copied bytes are exactly the whole array |
| `FlexBuffers.FlexBuffer.constructor` | src/protocol/flex-buffer.ts:8-11 | capacity `1 << 20`, nothing written |
| `FlexBuffers.FlexBuffer.Reset` | src/protocol/flex-buffer.ts:13-15 | nothing written; the capacity is kept |
| `FlexBuffers.FlexBuffer.Resize` | src/protocol/flex-buffer.ts:43-49 | the written bytes are kept and there is room for `m` more; a buffer that is large enough is kept; otherwise the new one has power-of-two capacity below 2(n + m) |
| `FlexBuffers.FlexBuffer.WriteInt32LE` | src/protocol/flex-buffer.ts:17-21 | the written bytes grow by the four little-endian bytes of `v` |
| `FlexBuffers.FlexBuffer.WriteUInt8` | src/protocol/flex-buffer.ts:23-27 | the written bytes grow by `v` |
| `FlexBuffers.FlexBuffer.WriteUint8Array` | src/protocol/flex-buffer.ts:29-37 | corrected: the written bytes grow by `arr[start..start + len]` |
| `FlexBuffers.FlexBuffer.Slice` | src/protocol/flex-buffer.ts:39-41 | the bytes written so far, `n` of them |
| `Objects.GameObj.constructor` | src/protocol/obj/game-obj.ts:24-31 | a new object is at the origin, at rest, dirty and never updated |
| `Objects.GameObj.Player` | src/protocol/obj/player-obj.ts:12-21 | a new player is in BAZOOKA mode, AIRBORNE, facing azimuth and altitude 0, with an empty name whatever name is passed |
| `Objects.GameObj.FallingBlock` | src/protocol/obj/falling-block-obj.ts:10-18 | a new falling block has rotation angle, speed and type index 0 |
| `Objects.GameObj.Missile` | src/protocol/obj/missile-obj.ts:5-7 | a new missile is a plain object of type MISSILE |
| `Objects.GameObj.Assign` | src/client/bundle.ts:155 | every field present in the data, the mode and the type index included, overwrites the object's field and the absent ones are kept; on values this is `Assigned` |
| `Objects.GameObj.AssignPlayer` | src/client/bundle.ts:155 | a present name, direction, situation or mode overwrites the object's; an absent one is kept |
| `Objects.GameObj.AssignBlock` | src/client/bundle.ts:155 | a present rotation angle, spin speed or type index overwrites the object's; an absent one is kept |
| `Objects.SetOrigins` | src/server/bazooka-game.ts:273-282 | the chunk origins a list of commands writes into: exactly the origins of its set commands |
| `Objects.LastSet` | src/server/bazooka-game.ts:273-282 | the value the last set at a point writes, absent exactly when no set names the point; a point with a value lies in a written chunk |
| `Objects.LastSetIsLast` | src/server/bazooka-game.ts:273-282 | that value comes from a set at the point with no later set at it |
| `Objects.SetOriginsStep` | src/server/bazooka-game.ts:273-282 | one more command adds its chunk origin when it is a set |
| `Objects.LastSetStep` | src/server/bazooka-game.ts:273-282 | one more command replaces the last value at its point when it is a set, and keeps every other |
| `Physics.ColliderOf` | src/protocol/physics.ts:165-169 | the collision test holds at a point exactly when the world's voxel at the floored coordinates is above 1, so an off-world cell (-1) is passable |
| `Physics.SnapshotAgrees` | src/protocol/physics.ts:165-169 | a copy of the chunk table reads the same voxel as `getVox` at every cell |
| `Physics.SimMissile` | src/protocol/physics.ts:50-65 | the missile's location, velocity and situation become the missile step of their old values, and nothing else changes |
| `Physics.MissileStep` | src/protocol/physics.ts:50-65 | a missile step keeps the horizontal velocity, lowers the vertical one by gravity times dt, and leaves the missile in the ground exactly when it collides at its new location or was already in the ground |
| `Physics.MissileStaysInGround` | src/protocol/physics.ts:62-64 | once in the ground, a missile stays in the ground over any number of steps |
| `Physics.BounceAxis` | src/protocol/physics.ts:104-116 | one axis of a bounce points away from the colliding side (the positive side wins when both collide), is unchanged with no contact, and is at most 0.6 of the old magnitude with one |
| `Physics.Bounce` | src/protocol/physics.ts:101-117 | each colliding axis ends pointing away from the contact, no component grows in magnitude, and with no contact the velocity is unchanged |
| `Physics.Snap` | src/protocol/physics.ts:93-95 | rounding down by a half and adding a half puts a coordinate at the centre of its cell |
| `Physics.BounceVelocity` | src/protocol/physics.ts:104-116 | the six guarded axis updates and the drag compute the bounce |
| `Physics.SimFallingBlock` | src/protocol/physics.ts:67-118 | the block's location, velocity, spin angle and spin speed become the falling-block step of their old values |
| `Physics.BlockStops` | src/protocol/physics.ts:91-100 | a block touching the floor with squared speed below 1 stops: zero velocity and spin, every coordinate at a cell centre |
| `Physics.BlockAtRestStays` | src/protocol/physics.ts:67-118 | a block at rest at a cell centre on a floor is a fixed point of the step |
| `Physics.BlockRestsForever` | src/protocol/physics.ts:67-118 | such a block stays where it is over any number of steps |
| `Physics.BounceLosesEnergy` | src/protocol/physics.ts:101-117 | a bounce leaves at most 0.64 of the squared speed |
| `Physics.SimObject` | src/protocol/physics.ts:37-46 | one object is stepped by `nowMs - lastUpdateMs` when it is a falling block or a missile and left alone otherwise |
| `Physics.SimObjects` | src/protocol/physics.ts:35-48 | every object of the list ends as its own step from its old state; `lastUpdateMs` and the object type are never changed |
| `Physics.BackOffStep` | src/protocol/physics.ts:126-133 | a colliding probe zeroes that axis's velocity (never reverses it) and moves the player back so that its edge lies in the cell before the wall; a free probe changes nothing; height and vertical speed never change |
| `Physics.BackOffNeverReverses` | src/protocol/physics.ts:124-134 | after any number of probes each horizontal velocity is either unchanged or zero, and height and vertical speed are unchanged |
| `Physics.HorizontalPass` | src/protocol/physics.ts:124-134 | the loop over the eight probe directions computes the whole back-off |
| `Physics.SupportOf` | src/protocol/physics.ts:143-160 | the five cases of the vertical table, each as an if-and-only-if of the three probes and the sign of the vertical speed |
| `Physics.SettledZ` | src/protocol/physics.ts:146-157 | a head bump puts the feet on the cell boundary below, standing and landing put them on the boundary above, and otherwise the height is kept |
| `Physics.VerticalTable` | src/protocol/physics.ts:139-160 | the branch chain computes the settled height, the zeroed or kept vertical speed and the situation of the support |
| `Physics.SimPlayer` | src/protocol/physics.ts:120-163 | the player's location, velocity and situation become the player step of their old values |
| `Physics.PlayerHorizontalNeverGrows` | src/protocol/physics.ts:124-137 | a player step never reverses or changes a horizontal velocity other than by zeroing it |
| `Physics.PlayerGrounded` | src/protocol/physics.ts:139-162 | a player on or in the ground has zero vertical speed, and one on the ground has its feet on a cell boundary |
| `LegacyPhysics.SituationOf` | src/client/physics.js:109-126 | the older code records 'suffocating', 'airborne' or 'on-ground' exactly where the shared physics records IN_GROUND, AIRBORNE or ON_GROUND |
| `LegacyPhysics.PlayerNext` | src/client/physics.js:86-129 | the older player step moves the player exactly as the shared one does and differs only in the spelling of the situation |
| `LegacyPhysics.VerticalTable` | src/client/physics.js:105-126 | the branch chain computes the settled height, the vertical speed and the situation string of the support |
| `LegacyPhysics.SimPlayer` | src/client/physics.js:86-129 | the player's location, velocity and situation become the older player step of their old values |
| `LegacyPhysics.SuffocatingExactly` | src/client/physics.js:106-111 | the player is 'suffocating' exactly when both the head and the underfoot probes collide after the horizontal pass, and then stays in place with zero vertical speed |
| `LegacyPhysics.GroundedAtRest` | src/client/physics.js:109-128 | a player not 'airborne' has zero vertical speed, and one 'on-ground' has its feet on a cell boundary |
| `LegacyPhysics.SimFallingBlocks` | src/client/physics.js:29-84 | every falling block of the state ends as the falling-block step of its old state by the same `dt` |
| `LegacyPhysics.Simulate` | src/client/physics.js:22-27 | the player takes the older player step and then every falling block takes a block step |
| `Interest.Trunc` | src/server/bazooka-game.ts:303-305 | the integer part a shift takes of a coordinate lies within 1 of it, toward zero |
| `Interest.GridDistance2` | src/server/bazooka-game.ts:302-306 | the squared distance between the chunk-grid cells of two points is never negative |
| `Interest.InRangeSymmetric` | src/server/bazooka-game.ts:302-309 | being in range is symmetric, and so is the grid distance |
| `Interest.InRangeByCell` | src/server/api.js:108-115 | only the chunk-grid cell of a point decides what it is in range of |
| `Interest.InRangeSameCell` | src/server/api.js:108-115 | two points of the same grid cell are in range exactly when the send radius is not 0 |
| `Connections.PostList` | src/server/conn.ts:74-87 | sending a list leaves at most one message, and one exactly when the socket is open and the list is not empty |
| `Connections.Conn.constructor` | src/server/conn.ts:29-45 | a new connection has no error and has sent nothing |
| `Connections.Conn.Send` | src/server/conn.ts:47-57 | a message is appended to what was sent unless the socket has closed, and then nothing is |
| `Connections.Conn.Die` | src/server/conn.ts:59-64 | the first error value is kept and sent to the client; a later error changes nothing |
| `Connections.Conn.SendHandshake` | src/server/conn.ts:70-72 | a handshake is sent |
| `Connections.Conn.SendObjects` | src/server/conn.ts:74-80 | an object list is sent as one message, and an empty one not at all |
| `Connections.Conn.SendChunks` | src/server/conn.ts:82-87 | a chunk batch is sent as one message holding that batch only, and an empty one not at all |
| `Connections.Conn.SendStatus` | src/server/bazooka-game.ts:84 | the status, the alive count and the total are sent in one message |
| `Connections.PlayerConn.constructor` | src/server/player-conn.ts:18-23 | a new player connection has sent no chunks and holds a fresh player keyed by its id |
| `Connections.SeparateRemove` | src/server/bazooka-game.ts:101-105 | removing one connection from a list of distinct connections leaves them distinct and drops its socket and player from the list |
| `BazookaGame.StatusAfterAdd` | src/server/bazooka-game.ts:93-95 | a join moves the status only from LOBBY to ACTIVE, exactly when the count reaches MAX_PLAYERS |
| `BazookaGame.StatusAfterRemove` | src/server/bazooka-game.ts:106-109 | a departure moves the status only from ACTIVE to COMPLETED, exactly when at most one player is alive |
| `BazookaGame.StatusOnlyForward` | src/server/bazooka-game.ts:88-115 | any sequence of joins and departures only moves the status forward, and COMPLETED is final |
| `BazookaGame.AliveCountPrefix` | src/server/bazooka-game.ts:117-123 | the alive count of the first n players is at most n |
| `BazookaGame.AliveCountExtremes` | src/server/bazooka-game.ts:117-123 | the alive count is 0 exactly when nobody has health above 0, and the whole count exactly when everybody has |
| `BazookaGame.Decimal` | src/server/bazooka-game.ts:293 | a number prints as at least one digit, and as one digit exactly when it is below 10 |
| `BazookaGame.DigitInjective` | src/server/bazooka-game.ts:293 | different digits print differently |
| `BazookaGame.DecimalInjective` | src/server/bazooka-game.ts:293 | different numbers print differently |
| `BazookaGame.MissileKeyInjective` | src/server/bazooka-game.ts:293 | missile keys of different counter values differ |
| `BazookaGame.MissilesNumberedAppend` | src/server/bazooka-game.ts:289-299 | a missile keyed by the next counter value keeps the objects numbered in order |
| `BazookaGame.NumberedDistinct` | src/server/bazooka-game.ts:289-299 | numbered missiles have pairwise distinct keys, so no object appears twice |
| `BazookaGame.Selected` | src/server/bazooka-game.ts:237-253 | a chunk batch holds only wanted chunks of the list, and every wanted chunk |
| `BazookaGame.Stamped` | src/server/bazooka-game.ts:251 | after a batch is sent, the cursor of each chunk of the batch is the tick and every other cursor is kept |
| `BazookaGame.CollectStep` | src/server/bazooka-game.ts:243-253 | one more chunk extends the batch and the cursors by one step of their definitions |
| `BazookaGame.SelectedBefore` | src/server/bazooka-game.ts:237-253 | a chunk's origin is not among those selected before it |
| `BazookaGame.ChunkSentExactly` | src/server/bazooka-game.ts:246-250 | a chunk goes to a player exactly when it is in range and its cursor is missing or 0, or it was dirty |
| `BazookaGame.SelectedOnly` | src/server/bazooka-game.ts:238-253 | a pass that can only want one chunk sends that chunk when wanted and nothing else |
| `BazookaGame.SentAfterPass` | src/server/bazooka-game.ts:238-253 | after a pass at a nonzero tick, every chunk in range counts as sent |
| `BazookaGame.ResendsOnlyEdited` | src/server/bazooka-game.ts:238-253 | after a pass at a nonzero tick and one edit, the next pass for a player that stayed put sends the edited chunk alone, or nothing when it is out of range |
| `BazookaGame.SelectedDistinct` | src/server/bazooka-game.ts:237-253 | a batch never holds two chunks of one origin |
| `BazookaGame.OfferChunk` | src/server/bazooka-game.ts:243-253 | each connection in range takes the chunk when it never had it or the chunk was dirty, and its cursor becomes the tick |
| `BazookaGame.StampedAppend` | src/server/bazooka-game.ts:251 | stamping one more chunk is stamping the batch, then that chunk |
| `BazookaGame.CollectChunks` | src/server/bazooka-game.ts:230-254 | every chunk ends clean, and each connection collects, in world order, the chunks it wanted at the start, with their cursors stamped |
| `BazookaGame.MarkClean` | src/server/bazooka-game.ts:239-241 | a chunk is marked clean and whether it was dirty is returned |
| `BazookaGame.VisibleOthers` | src/server/bazooka-game.ts:193-199 | the players a connection is told about are exactly the others that are named and in range, in connection order |
| `BazookaGame.ObjectsFor` | src/server/bazooka-game.ts:188-222 | a connection's object list is its visible players, then every game object |
| `BazookaGame.ObjectsToSend` | src/server/bazooka-game.ts:189-220 | the loops build exactly that list |
| `BazookaGame.ObjectLists` | src/server/bazooka-game.ts:188-223 | one list per connection, each the list of that connection |
| `BazookaGame.SendObjectLists` | src/server/bazooka-game.ts:222 | each connection is sent its own list, and nothing for an empty one |
| `BazookaGame.SendBatches` | src/server/bazooka-game.ts:258-260 | each connection is sent its own batch, and nothing for an empty one |
| `BazookaGame.NeverSelf` | src/server/bazooka-game.ts:193-194 | a connection is never sent its own player |
| `BazookaGame.Fires` | src/server/bazooka-game.ts:273-282 | the number of fire commands is at most the number of commands |
| `BazookaGame.FiresAppend` | src/server/bazooka-game.ts:273-282 | fire commands count additively over a list |
| `BazookaGame.Game.constructor` | src/server/bazooka-game.ts:40-48 | a new game is an empty LOBBY over an empty world with counter and total 0 |
| `BazookaGame.Game.NumPlayersAlive` | src/server/bazooka-game.ts:117-123 | the number of players with health above 0, at most the number of connections |
| `BazookaGame.Game.SendStatus` | src/server/bazooka-game.ts:81-86 | every connection is sent the status, the alive count and the total |
| `BazookaGame.Game.AddPlayer` | src/server/bazooka-game.ts:88-99 | the connection is appended, the status follows a join, the total is the new count, and everybody gets the new status |
| `BazookaGame.Game.Join` | src/server/bazooka-game.ts:90-97 | the bookkeeping of a join: appended, status moved, total updated |
| `BazookaGame.Game.RemovePlayer` | src/server/bazooka-game.ts:101-111 | an unknown id changes nothing; a known one removes exactly the first connection with it, ends a running game with at most one player alive, and tells the others |
| `BazookaGame.Game.RemoveAt` | src/server/bazooka-game.ts:105-110 | the connection at the index leaves, the status follows the departure, the others are told and the departed one is not |
| `BazookaGame.Game.Leave` | src/server/bazooka-game.ts:105-109 | the bookkeeping of a departure: removed, status moved, its socket no longer listed |
| `BazookaGame.Game.SendObjects` | src/server/bazooka-game.ts:185-224 | each connection is sent, in one message, its visible players then every game object |
| `BazookaGame.Game.SendChunks` | src/server/bazooka-game.ts:227-261 | every chunk ends clean; each connection is sent the chunks it wanted at the start, in world order, and its cursors for them become the tick |
| `BazookaGame.Game.KillFallen` | src/server/bazooka-game.ts:140-146 | the connection of every player below height -100 dies with an error whose message "you fell" reaches the client; the others are untouched |
| `BazookaGame.FellErrorAsWritten` | src/server/bazooka-game.ts:144 | the `Error` instance the source passes carries "you fell", yet its message does not survive serialisation |
| `BazookaGame.FellError` | src/server/bazooka-game.js:54 | the plain `{message}` value the older game passes reaches the client as "you fell" |
| `BazookaGame.Game.Tick` | src/server/bazooka-game.ts:125-148 | nothing happens unless the game is ACTIVE; then the objects take a physics step; off the 20th ticks no chunk or connection changes, and on them every chunk ends clean |
| `BazookaGame.Game.SendAndCull` | src/server/bazooka-game.ts:136-147 | the every-20th-tick part (the sends, then the fallen players die): after it every chunk is clean |
| `BazookaGame.Game.SendSync` | src/server/bazooka-game.ts:137-138 | objects then chunks are sent, each connection's outbox gaining exactly those two results |
| `BazookaGame.Game.Simulate` | src/server/bazooka-game.ts:173-182 | every game object takes one physics step against the world |
| `BazookaGame.Game.HandleSet` | src/server/bazooka-game.ts:285-287 | the voxel at the command's point reads the command's value, the rest of its chunk and all other chunks read as before, the chunk is dirty and no other chunk flag changes |
| `BazookaGame.Game.HandleUpdate` | src/server/bazooka-game.ts:263-283 | every field the client's record carries, mode and type index included, overwrites the player's and the absent ones are kept; each fire adds one missile, and every new missile starts at the updated player's location with the launch velocity of its view; every point a set wrote reads the last value written there, the chunks of no set read as before, the chunks written into are dirty and no other chunk flag changes |
| `BazookaGame.Game.HandleCommands` | src/server/bazooka-game.ts:273-282 | the counter and the object list grow by the number of fire commands, every new missile starting at the player's location with the launch velocity; every point a set wrote reads the last value written there, the chunks of no set read as before, the chunks written into are dirty and no other chunk flag changes |
| `BazookaGame.Game.HandleNext` | src/server/bazooka-game.ts:273-282 | one more command of the loop extends the summary of the commands run so far, missiles included |
| `BazookaGame.AppliedStep` | src/server/bazooka-game.ts:273-282 | running one more command extends the summary: the point it sets holds its value, earlier writes elsewhere are kept |
| `BazookaGame.ReadBack` | src/server/bazooka-game.ts:273-282 | the summary of the commands holds for `getVox` and for the chunks' own flags |
| `BazookaGame.Game.HandleCommand` | src/server/bazooka-game.ts:274-281 | a set has the effect of `setVox` on the world, a fire adds one missile fired from the player and leaves the world alone, anything else changes nothing |
| `BazookaGame.Game.SetCase` | src/server/bazooka-game.ts:276-277 | a set has the effect of `setVox` and leaves the missiles fired so far as they were |
| `BazookaGame.Game.FireCase` | src/server/bazooka-game.ts:278-279 | a fire appends one missile at the player's location with the launch velocity and leaves the world alone |
| `BazookaGame.Game.SetCommand` | src/server/bazooka-game.ts:276-277 | a set has the effect of `setVox` on the world and adds no object |
| `BazookaGame.Game.FireCommand` | src/server/bazooka-game.ts:278-279 | a fire adds one missile at the player's location with the launch velocity and leaves the world alone |
| `BazookaGame.Game.EndGame` | src/server/bazooka-game.ts:113-115 | the status becomes COMPLETED |
| `BazookaGame.Game.HandleFireBazooka` | src/server/bazooka-game.ts:289-299 | one fresh missile is appended, keyed by the incremented counter, at the player's location with the launch velocity |
| `BazookaGame.NewMissile` | src/server/bazooka-game.ts:294-296 | a fresh missile with the given key, location and velocity |
| `BazookaGame.IndexOfId` | src/server/bazooka-game.ts:102 | the index of the first connection with the id, or none exactly when no connection has it |
| `Api.IndexOf` | src/server/api.js:27 | the first index holding the connection, or -1 exactly when it is absent |
| `Api.RemoveFound` | src/server/api.js:27-29 | a connection that is present is removed at its first index and the list shrinks by one |
| `Api.RemoveMissing` | src/server/api.js:27-29 | removing an absent connection drops the last element instead |
| `Api.RemoveSeparate` | src/server/api.js:26-30 | removing a connection keeps the others distinct and its socket is no longer listed |
| `Api.ViewsFor` | src/server/api.js:48-68 | a connection's views are one per visible other player, in connection order |
| `Api.ViewsExactly` | src/server/api.js:48-68 | a named other player in range is in the list, and every view is of such a player, keyed 'player-' plus its name |
| `Api.ViewsToSend` | src/server/api.js:46-68 | the inner loop builds exactly those views |
| `Api.ViewLists` | src/server/api.js:43-68 | one list of views per connection |
| `Api.SendViewLists` | src/server/api.js:70 | each connection is sent its own list, and nothing for an empty one |
| `Api.SendViews` | src/server/api.js:117-123 | a view list is sent as one message, and an empty one not at all |
| `Api.NeverUpToDate` | src/server/api.js:85-96 | because `lastModified` is never assigned, every chunk counts as modified and no cursor counts as up to date |
| `Api.ChunkResentExactly` | src/server/api.js:90-99 | a chunk goes to a player exactly when it is in range, whatever was sent before |
| `Api.OfferInRange` | src/server/api.js:90-99 | each connection in range takes the chunk and its cursor becomes the tick; the others are untouched |
| `Api.MarkModified` | src/server/api.js:85-88 | one more chunk is clean and stamped with the tick |
| `Api.QueueChunks` | src/server/api.js:78-100 | every chunk ends clean and stamped with the tick, and each connection collects, in world order, the chunks in range, with its cursors for them stamped |
| `Api.ApiState.constructor` | src/server/api.js:19-21 | the state holds the given connections, world and client configuration |
| `Api.ApiState.AddConn` | src/server/api.js:23-34 | the connection is appended and sent a handshake, then the client configuration only when there is one |
| `Api.ApiState.RemoveConn` | src/server/api.js:26-30 | a present connection is removed at its first index; an absent one removes the last connection |
| `Api.ApiState.UpdateObjects` | src/server/api.js:40-72 | each connection is sent the views of the named other players in range, and nothing when there are none |
| `Api.ApiState.UpdateChunks` | src/server/api.js:75-106 | every chunk ends clean and stamped, and each connection is sent every chunk in range, in world order, with its cursors stamped |
| `Api.ApiState.HandleSet` | src/server/api.js:144-146 | the voxel at the command's point reads the command's value, the rest of its chunk and all other chunks read as before, the chunk is dirty and no other chunk flag changes |
| `Api.ApiState.HandleUpdate` | src/server/api.js:133-142 | every point a set wrote reads the last value written there, the chunks of no set read as before, the chunks written into are dirty and no other chunk flag changes |
| `Api.ApiState.HandleCommand` | src/server/api.js:134-141 | a set has the effect of `setVox` on the world; any other command changes nothing |
| `ClientState.Socket.constructor` | src/client/socket.ts:11-25 | a new socket has sent nothing |
| `ClientState.Socket.Send` | src/client/socket.ts:46-55 | a message is sent exactly when the socket is open, and otherwise the send fails and nothing is sent |
| `ClientState.GameState.constructor` | src/client/bundle.ts:36-69 | the client starts paused, in first person, in the LOBBY, with an unkeyed player, no objects, no pending commands or chunks, an empty world, no configuration and no error |
| `ClientBundle.KeysOfOccur` | src/client/bundle.ts:148-149 | the keys marked by the merge are exactly the keys of the incoming objects |
| `ClientBundle.LastWith` | src/client/bundle.ts:148-155 | the incoming object that wins for a key has that key |
| `ClientBundle.LastWithIsLast` | src/client/bundle.ts:148-155 | it is the last incoming object with that key |
| `ClientBundle.LastCommonsAreLast` | src/client/bundle.ts:148-155 | the common fields an object ends with are those of the last incoming object with its key |
| `ClientBundle.NoneFailsStep` | src/client/bundle.ts:148-154 | the merge gets one object further without an unknown type |
| `ClientBundle.CreateObject` | src/client/bundle.ts:170-182 | PLAYER, FALLING_BLOCK and MISSILE give a fresh object of that type with the same key and the fields `Created` gives (a player AIRBORNE in BAZOOKA mode with an empty name); any other type is an error |
| `ClientBundle.FindOrCreate` | src/client/bundle.ts:150-154 | a known key gives the stored object; an unknown one of a known type stores a new object under it with the fields `Created` gives; an unknown type fails and stores nothing |
| `ClientBundle.MergedKeys` | src/client/bundle.ts:148-155 | merging adds exactly the incoming keys, and a stored key that does not come in keeps its fields |
| `ClientBundle.MergedLast` | src/client/bundle.ts:148-155 | an incoming key ends with the fields of its last occurrence: assigning that occurrence again changes nothing, so its common fields and every field it carries, mode and type index included, are the object's |
| `ClientBundle.MergedKeepsAbsent` | src/client/bundle.ts:155 | a stored object keeps its mode, and its type index, when no incoming object with its key carries one |
| `ClientBundle.MergedCommon` | src/client/bundle.ts:148-155 | an incoming key ends with the common fields of its last occurrence |
| `ClientBundle.MergedOneStored` | src/client/bundle.ts:150-155 | merging one object is taking the stored fields, or a new object's, and assigning the data to them |
| `ClientBundle.SnapshotAdd` | src/client/bundle.ts:153 | storing a new object under a new key adds its fields to the record of stored fields |
| `ClientBundle.AssignStored` | src/client/bundle.ts:155 | assigning the data to the object under its key changes that key's fields as `Assigned` says and no other object's |
| `ClientBundle.StoreMerged` | src/client/bundle.ts:150-155 | the stored or new object under the key is assigned the data: the stored fields become `MergedOne` of the old ones, known keys keep their objects, and an unknown type fails with nothing stored |
| `ClientBundle.SetPlayer` | src/client/bundle.ts:157-159 | the object becomes the player exactly when its key is the player key |
| `ClientBundle.MergeOne` | src/client/bundle.ts:148-160 | one incoming object is found or created and every field it carries, mode and type index included, is copied over (the stored fields become `MergedOne` of the old ones); it becomes the player when its key is the player key |
| `ClientBundle.KeysOfStep` | src/client/bundle.ts:148-155 | one more incoming object adds its key and its fields win for that key |
| `ClientBundle.PrefixStep` | src/client/bundle.ts:148-159 | one more incoming object keeps the player rule and is one more merge step of the fields |
| `ClientBundle.MergeStep` | src/client/bundle.ts:148-160 | one step of the merge loop keeps the merge invariant |
| `ClientBundle.MergeNext` | src/client/bundle.ts:148-160 | one step of the merge loop, failing exactly on an unknown type |
| `ClientBundle.MergeStart` | src/client/bundle.ts:148 | the merge invariant holds before the first object |
| `ClientBundle.MergeAll` | src/client/bundle.ts:148-160 | the merge fails exactly when some new key has an unknown type, never loses a key, and otherwise ends in the merge state of all incoming objects |
| `ClientBundle.DropMissing` | src/client/bundle.ts:163-167 | exactly the stored keys that came in are kept, with their objects |
| `ClientBundle.HandleObjects` | src/client/bundle.ts:143-168 | after an objects message the stored keys are exactly the incoming keys, each object holds the fields `Merged` gives for the old objects and the incoming list (so the common fields of the last incoming object with its key, and every field that object carries, mode and type index included), known keys keep their object, and the player is the object under the player key when one came in; an unknown type fails |
| `ClientBundle.HandleBinary` | src/client/bundle.ts:97-100 | a binary message replaces the pending chunk updates |
| `ClientBundle.HandleConfig` | src/client/bundle.ts:139-141 | a config message sets the configuration |
| `ClientBundle.HandleStatus` | src/client/bundle.ts:112-128 | a status message copies the status and the counts and shows the lobby count; the game starts (splash removed, name taken, start time set) exactly on a LOBBY to ACTIVE move |
| `ClientBundle.StartsOnce` | src/client/bundle.ts:114 | after a start, no status message can start the game again |
| `ClientBundle.HandleClose` | src/client/bundle.ts:134-136 | a closed socket shows "connection lost" unless an error is already shown, in which case nothing changes |
| `ClientBundle.HandleJson` | src/client/bundle.ts:102-132 | each message type changes only its own part of the state: handshakes and unknown types nothing, config the configuration, objects the object map, error the first error, status the status and the start |
| `ClientBundle.TickControls` | src/client/bundle.ts:193-196 | while paused nothing is queued and the world is untouched; otherwise a fire key queues one fire command and a left click on a block queues a set at that block (WATER exactly beside water, AIR otherwise) that is in force in the world, every point of another chunk reading as before; without such a click the world is untouched |
| `ClientBundle.SendUpdate` | src/client/bundle.ts:200-213 | with an open socket and a keyed player, the changed input is stored, the player with every field it holds, mode and type index included, and the pending commands are sent in one message and the commands are cleared; otherwise nothing changes |
| `ClientBundle.Tick` | src/client/bundle.ts:185-217 | nothing happens once an error is shown; otherwise the picked block is stored, commands are queued as the controls say, and they are sent and cleared exactly when the socket is open and the player keyed |
| `ClientBundle.ReplaceAllLast` | src/client/bundle.ts:311-320 | after replaying chunks each origin holds the last replayed chunk with that origin, and origins not replayed keep their chunk |
| `ClientBundle.ApplyChunkUpdates` | src/client/bundle.ts:311-320 | the world's table becomes the replay of the pending chunks in order, and the pending list ends empty |
| `LegacyClientState.LegacyPlayer.constructor` | src/client/index.js:26-40 | the local player starts at height 100, facing azimuth and altitude 0, at rest, airborne, in third person, looking at no block, with no placing value |
| `LegacyClientState.LegacyObj.Player` | src/client/models/player.js:57-74 | a remote player starts at the origin, at rest, with the default props, whatever name is passed |
| `LegacyClientState.LegacyObj.Block` | src/client/models/falling-block.ts:11-18 | a remote falling block starts at the origin, at rest, with an empty props map |
| `LegacyClientState.LegacyObj.Destroy` | src/client/models/player.js:165-168 | the object is marked destroyed |
| `LegacyClientState.LegacyState.constructor` | src/client/index.js:23-57 | the older client starts paused, with no objects, no pending commands or chunks, an empty world, no configuration and no error |
| `ClientIndex.KindAsWritten` | src/client/index.js:153-162 | as written, only 'player' creates an object: 'block' names an undefined class and fails like an unknown type |
| `ClientIndex.BlockRejectedAsWritten` | src/client/index.js:157-158 | a 'block' object fails as written though the intended client draws it |
| `ClientIndex.KindAsWrittenElsewhere` | src/client/index.js:153-162 | apart from 'block', the written and the intended dispatch accept the same types with the same kinds |
| `ClientIndex.CreateObject` | src/client/index.js:153-162 | 'player' and 'block' give a fresh object of that kind; anything else fails with "unrecognized object type" and the type |
| `ClientIndex.KeysOccur` | src/client/index.js:132-133 | the keys marked by the merge are exactly the keys of the incoming objects |
| `ClientIndex.LastInfo` | src/client/index.js:132-142 | the incoming object that wins for a key has that key |
| `ClientIndex.LastInfoIsLast` | src/client/index.js:132-142 | it is the last incoming object with that key |
| `ClientIndex.KeysStep` | src/client/index.js:132-133 | one more incoming object adds its key |
| `ClientIndex.ViewsStep` | src/client/index.js:132-142 | one more incoming object is one more merge step |
| `ClientIndex.ViewsKeys` | src/client/index.js:132-142 | the merge adds exactly the incoming keys and leaves the other objects' fields alone |
| `ClientIndex.ViewsLast` | src/client/index.js:136-141 | every merged object carries the location, direction, velocity and situation of the last incoming object with its key, its props merged over the old ones, and the current time |
| `ClientIndex.FindOrCreate` | src/client/index.js:134-135 | a known key gives the stored object; an unknown one of a known type stores a new object; an unknown type fails and stores nothing |
| `ClientIndex.Absorb` | src/client/index.js:136-141 | the object's fields become the merge of the incoming object into them |
| `ClientIndex.MergeOne` | src/client/index.js:132-142 | one incoming object is found or created and merged; its key is added and other objects are untouched |
| `ClientIndex.NoneFailsStep` | src/client/index.js:132-135 | the merge gets one object further without an unknown type |
| `ClientIndex.MergeStart` | src/client/index.js:132 | the merge invariant holds before the first object |
| `ClientIndex.MergeStep` | src/client/index.js:132-142 | one step of the merge loop keeps the merge invariant |
| `ClientIndex.MergeNext` | src/client/index.js:132-142 | one step of the merge loop, failing exactly on an unknown type |
| `ClientIndex.MergeAll` | src/client/index.js:131-142 | the merge fails exactly when a new key has an unknown type; otherwise the keys are the old ones plus the incoming ones and every object holds the merge of the incoming objects |
| `ClientIndex.DropStale` | src/client/index.js:144-150 | exactly the stored keys that came in, and 'self', are kept; every dropped object was destroyed first |
| `ClientIndex.HandleObjects` | src/client/index.js:127-151 | after an objects message the keys are exactly the incoming keys (and 'self' if it was there), each object holds the merged fields, known keys keep their object and dropped objects are destroyed; an unknown type fails |
| `ClientIndex.HandleBinary` | src/client/index.js:100-103 | a binary message replaces the pending chunk updates |
| `ClientIndex.HandleJson` | src/client/index.js:105-116 | config sets the configuration, objects merges, error shows its message, and any other type changes nothing |
| `ClientIndex.TickControls` | src/client/index.js:172-175 | while paused nothing is queued; otherwise a break queues a set exactly when a block is looked at; a queued set is in force in the world and every point of another chunk reads as before; with nothing queued the world is untouched |
| `ClientIndex.SendUpdate` | src/client/index.js:185-192 | with an open socket the player and the pending commands are sent in one message and the commands are cleared; otherwise nothing changes |
| `ClientIndex.Tick` | src/client/index.js:165-196 | nothing happens once an error is shown; otherwise the picked block is stored on the player, at most one set is queued, and the commands are sent and cleared exactly when the socket is open |
| `ClientIndex.ApplyChunkUpdates` | src/client/index.js:267-276 | the world's table becomes the replay of the pending chunks in order, and the pending list ends empty |
| `PlayerControls.NavigateAsWritten` | src/client/player-controls.ts:41-61 | as written, a player whose input was never set makes the comparison fail; otherwise the six flags come back exactly when one differs from the stored input |
| `PlayerControls.Navigate` | src/client/player-controls.ts:41-61 | nothing comes back exactly when the six current flags equal the stored input, and otherwise exactly the current flags; it agrees with the written version wherever that one succeeds |
| `PlayerControls.NavigateSettles` | src/client/bundle.ts:201-205 | once a change is stored as the input, asking again with the same keys reports no change |
| `PlayerControls.FMod` | src/client/player-controls.ts:70 | the remainder has the sign of the dividend, is smaller than the divisor in magnitude, and leaves a value already in range unchanged |
| `PlayerControls.WrapAzimuth` | src/client/player-controls.ts:69-70 | the wrapped azimuth is in [0, 2 pi) whenever the turned azimuth is at least -2 pi, and within (-2 pi, 2 pi) always |
| `PlayerControls.ClampAltitude` | src/client/player-controls.ts:71-72 | the altitude ends in [-pi/2, pi/2], kept when already there and set to the nearer bound otherwise |
| `PlayerControls.Turned` | src/client/player-controls.ts:64-73 | a turned direction has its altitude in [-pi/2, pi/2] and its azimuth within (-2 pi, 2 pi) |
| `PlayerControls.Look` | src/client/player-controls.ts:64-73 | the player's direction becomes the turned one, with its altitude in [-pi/2, pi/2] and its azimuth in [0, 2 pi) unless the turn went below -2 pi |
| `PlayerControls.Neighbors` | src/client/player-controls.ts:100-106 | the five cells one step from the block, without the one below it |
| `PlayerControls.NeighborVoxels` | src/client/player-controls.ts:100-107 | the five voxels around the block, which hold WATER exactly when the block is next to water |
| `PlayerControls.SetBlock` | src/client/player-controls.ts:112-116 | the voxel is written, and the returned set command has the same point and value |
| `PlayerControls.BreakBlock` | src/client/player-controls.ts:95-110 | nothing happens without a target; otherwise the target becomes WATER exactly when a non-downward neighbour is WATER and AIR otherwise, and the set command is returned |
| `PlayerControls.KeyActionOf` | src/client/player-controls.ts:18-26 | keys '1', '2', '3' and 'F' act in that priority, and only the first one down |
| `PlayerControls.Toggled` | src/client/player-controls.ts:28-30 | a toggle always switches the camera mode |
| `PlayerControls.InteractKeys` | src/client/player-controls.ts:17-32 | the first key down sets the mode or queues one fire command; '9' toggles the camera and '0' the HUD |
| `PlayerControls.Interact` | src/client/player-controls.ts:17-38 | the key effects, then a left click breaks the looked-at block and returns its command exactly when there is one; the broken block holds the command's value and every point of another chunk reads as before; with no command returned the world is untouched |
| `LegacyControls.Look` | src/client/player-controls.js:109-118 | the older controls turn the view the same way, with the altitude in [-pi/2, pi/2] |
| `LegacyControls.IntersectsPlayerCells` | src/client/player-controls.js:131-137 | the guard refuses exactly the cell of the player's head point and the cell below it |
| `LegacyControls.PlaceBlock` | src/client/player-controls.js:122-140 | nothing is placed without a target or when the cell next to the face hit overlaps the player; otherwise that cell gets the player's placing value, 0 while it has none, and the set command is returned |
| `LegacyControls.Toggles` | src/client/player-controls.js:26-28 | '9' toggles the camera and '0' the HUD |
| `LegacyControls.Interact` | src/client/player-controls.js:19-35 | a right click or shift and left click breaks the looked-at block, a plain left click places one; the edited cell holds the returned command's value and every point of another chunk reads as before; with no command returned the world is untouched |
| `Splash.StripName` | src/client/splash.ts:53 | stripping keeps only letters, digits and spaces, and leaves a name of those characters unchanged |
| `Splash.ToLower` | src/client/splash.ts:54 | lower-casing changes exactly the upper-case letters and turns a stripped name into lower-case letters, digits and spaces |
| `Splash.FilterName` | src/client/splash.ts:53-54 | the filtered name is no longer than the typed one and holds only lower-case letters, digits and spaces |
| `Splash.StripNameConcat` | src/client/splash.ts:53 | stripping a joined string joins the stripped halves |
| `Splash.StripNameAppend` | src/client/splash.ts:53 | a typed character is kept, at the end, exactly when the pattern accepts it |
| `Splash.ToLowerConcat` | src/client/splash.ts:54 | lower-casing a joined string joins the lower-cased halves |
| `Splash.FilterNameAppend` | src/client/splash.ts:53-54 | a typed character adds its lower-case form at the end exactly when the pattern accepts it, and nothing otherwise |
| `Splash.FilterKeepsClean` | src/client/splash.ts:53-55 | a name already made of those characters is left unchanged, so the field is not rewritten |
| `Splash.FilterIdempotent` | src/client/splash.ts:53-55 | filtering twice is filtering once |
| `Splash.SplashScreen.constructor` | src/client/splash.ts:25-48 | the splash starts with an empty name, nothing shown, no lobby entered, no error and no full screen |
| `Splash.SplashScreen.EnterLobby` | src/client/splash.ts:69-79 | the first call removes the start panel and sends an activate message when the socket is open; a second call fails, as the panel is gone, and sends nothing |
| `Splash.SplashScreen.UpdateSplash` | src/client/splash.ts:50-62 | nothing happens once the game has started; otherwise the field holds the filtered name, the start button and the controls show exactly when it has 3 to 19 characters, and Enter on a ready name enters the lobby |
| `Splash.SplashScreen.UpdatePlayers` | src/client/splash.ts:64-67 | the lobby shows the total of the maximum |
| `Splash.SplashScreen.StartGame` | src/client/splash.ts:82-97 | the splash is removed, the canvas click is armed, the player takes the typed name and the start time is set |
| `Splash.SplashScreen.ClickCanvas` | src/client/splash.ts:89-93 | once armed, a click asks for full screen and pointer lock unless an error is shown |
| `Splash.SplashScreen.ShowError` | src/client/splash.ts:101-111 | the first error is kept and shown and leaves full screen; a later one changes nothing |
| `Meshes.FlattenAt` | src/math/mesh.ts:45-51 | the k-th element of the i-th part sits in the concatenation at the length of the parts before it plus k |
| `Meshes.FlattenTriangles` | src/math/mesh.ts:43-53 | concatenating triangle lists yields a triangle list |
| `Meshes.FlattenSameLength` | src/math/mesh.ts:43-53 | parts of pairwise equal length concatenate to equal lengths |
| `Meshes.Mesh.Init` | src/math/mesh.ts:19-34 | a mesh holds the given vertices, normals and UVs with no parent and offset 0 |
| `Meshes.NewMesh` | src/math/mesh.ts:19-34 | missing arrays become empty; the mesh is built exactly when the vertex count is a multiple of 3 and matches the normal and UV counts, otherwise the first failing check's error message is returned |
| `Meshes.Mesh.Clone` | src/math/mesh.ts:36-41 | cloning a valid mesh always succeeds and yields a fresh, unparented mesh with equal contents |
| `Meshes.LastIndex` | src/math/mesh.ts:45-47 | the position of the last occurrence of a mesh in the list, the one whose assignment survives |
| `Meshes.Attach` | src/math/mesh.ts:46-50 | the part's parent becomes the combined mesh, its offset the combined length before it, and its arrays are appended |
| `Meshes.CombineNext` | src/math/mesh.ts:45-51 | one pass of the loop attaches the next part and keeps the concatenation, parent and last-occurrence offset facts for the longer prefix |
| `Meshes.Combine` | src/math/mesh.ts:43-53 | the result is a fresh root mesh whose arrays are the concatenation of the parts; each part is unchanged in content, points at the result and records the length of the parts before its last occurrence |
| `Meshes.LastIndexSnoc` | src/math/mesh.ts:45-47 | appending one more part moves the last occurrence exactly when the part is that mesh |
| `Meshes.FlattenSnoc` | src/math/mesh.ts:48-50 | the concatenation grows by exactly the appended part |
| `Meshes.CombinedPartAt` | src/math/mesh.ts:47-48 | at its recorded offset the combined mesh holds the part's own vertices |
| `Meshes.CombinedValid` | src/math/mesh.ts:43-53 | combining valid meshes yields a valid mesh |
| `Meshes.EffectiveOffset` | src/math/mesh.ts:65 | a nonzero offset argument wins; a missing or zero one falls back to the part's own offset |
| `Meshes.WrittenOutside` | src/math/mesh.ts:70-79 | positions outside the written window keep their old values |
| `Meshes.WrittenInside` | src/math/mesh.ts:70-79 | position offset+i of the output holds the map applied to the input's i-th entry |
| `Meshes.WriteAt` | src/math/mesh.ts:71-78 | one step writes exactly one vertex and one normal at offset+i |
| `Meshes.WriteRange` | src/math/mesh.ts:70-79 | the output becomes the written window over its old arrays and stays valid |
| `Meshes.TransformPart` | src/math/mesh.ts:63-80 | fails, changing nothing, exactly when a matrix is missing or the window falls outside the output; otherwise vertices and normals in the window are mapped and nothing else changes |
| `Meshes.CopyPart` | src/math/mesh.ts:82-98 | fails, changing nothing, exactly when the window falls outside the output; otherwise the window is overwritten by the input |
| `Meshes.CopiedPart` | src/math/mesh.ts:89-97 | after a copy every position inside the window holds the input's value and every other position is unchanged |
| `Meshes.Transform` | src/math/mesh.ts:56-61 | fails, changing nothing, exactly when sizes differ, a matrix is missing or the input is a part with a positive offset; otherwise every output vertex and normal is the map of the input's at the same index, also when output and input are one mesh |
| `Meshes.WrittenAligned` | src/math/mesh.ts:70-79 | at offset 0 every position ends as the map of the input's, also in place, as each step reads its position before writing it |
| `Meshes.TransformRejectsParts` | src/math/mesh.ts:60-68 | with offset 0 passed, a nonempty part with positive offset always overruns an output of its own size |
| `Meshes.TransformWhole` | src/math/mesh.ts:56-61 | fails exactly when sizes differ or a matrix is missing; otherwise every output vertex and normal is the map of the input's at the same index, also when output and input are one mesh |
| `Poly8Geometry.Min` | src/math/geometry/poly8.ts:84-86 | the lesser of two extended reals, which is one of them |
| `Poly8Geometry.Max` | src/math/geometry/poly8.ts:87-89 | the greater of two extended reals, which is one of them |
| `Poly8Geometry.Extend` | src/math/geometry/poly8.ts:83-90 | each lower bound becomes the minimum with the vertex coordinate and each upper bound the maximum |
| `Poly8Geometry.BoxContains` | src/math/geometry/poly8.ts:74-92 | every vertex lies within the box on every axis |
| `Poly8Geometry.BoxAttained` | src/math/geometry/poly8.ts:74-92 | on a nonempty list each bound is attained by some vertex |
| `Poly8Geometry.ComputeAABB` | src/math/geometry/poly8.ts:74-92 | the box starts empty, contains every vertex and each of its bounds is attained when there is a vertex |
| `Poly8Geometry.NewPoly8` | src/math/geometry/poly8.ts:16-20 | the polyhedron keeps its vertices and UVs and its box is the tightest one around the vertices |
| `Poly8Geometry.AxisOverlap` | src/math/geometry/poly8.ts:26-28 | the max-of-lows against min-of-highs test on one axis holds exactly when the segment and the box overlap there |
| `Poly8Geometry.IntersectOverlaps` | src/math/geometry/poly8.ts:23-30 | the intersection test holds exactly when the extents overlap on all three axes |
| `Poly8Geometry.EmptyIntersectsNothing` | src/math/geometry/poly8.ts:23-30 | a polyhedron with no vertices intersects nothing |
| `Poly8Geometry.ViIsFace` | src/math/geometry/poly8.ts:8 | the corner selector agrees with the FACE table |
| `Poly8Geometry.FaceTable` | src/math/geometry/poly8.ts:44-50 | the six corner indices written for each face, in order |
| `Poly8Geometry.FaceIsSide` | src/math/geometry/poly8.ts:47-50 | face i uses exactly the four corners whose bit for axis i/2 equals i mod 2 |
| `Poly8Geometry.FaceTriangles` | src/math/geometry/poly8.ts:43-51 | each of the two triangles of a face has three distinct corners |
| `Poly8Geometry.NormalIsUnitAxis` | src/math/geometry/poly8.ts:38-40 | face i's normal is the unit vector on axis i/2, negative for even i |
| `Poly8Geometry.BuildableIff` | src/math/geometry/poly8.ts:41-55 | the mesh can be built exactly when there are at least 8 vertices and every face UV list present has at least 4 entries |
| `Poly8Geometry.FilledStep` | src/math/geometry/poly8.ts:50-56 | pushing the next vertex, normal and UV extends the filled prefix by one |
| `Poly8Geometry.PushVertex` | src/math/geometry/poly8.ts:45-56 | succeeds exactly when the corner and UV exist, and then appends exactly them and the face normal |
| `Poly8Geometry.CreateMesh` | src/math/geometry/poly8.ts:33-61 | succeeds exactly when the polyhedron is buildable, returning a fresh valid root mesh filled face by face |
| `Poly8Geometry.MeshSize` | src/math/geometry/poly8.ts:37-58 | a filled mesh has 36 vertices, normals and UVs |
| `Poly8Geometry.CuboidCorner` | src/math/geometry/poly8.ts:67 | corner c takes the high coordinate on each axis whose bit in c is set and the low one elsewhere |
| `Poly8Geometry.AxisAligned` | src/math/geometry/poly8.ts:65-70 | the cuboid has the 8 corners in index order, keeps the UVs and its box spans the two points |
| `Poly8Geometry.FaceOutward` | src/math/geometry/poly8.ts:37-53 | on an ordered cuboid each face's corners lie on the side its normal names, and every corner lies behind the face along the normal |
| `Poly8Geometry.DotOnAxis` | src/math/geometry/poly8.ts:38-40 | the dot product with an axis vector is the product of the two coordinates on that axis |

## Left out

- Sockets, WebSockets, HTTP, timers, the DOM, sound and the file system are not modelled. A message a connection or the client socket sends is appended to an `outbox` sequence, and event callbacks become direct method calls.
- Clock readings, keyboard and mouse state, random choices and uuids are parameters of the operations that use them.
- The vector and matrix maps of gl-mat4 and gl-vec3, and `toCartesian` in `_handleFireBazooka`, are function-valued parameters. Nothing is proved about their arithmetic.
- Physics works over mathematical reals with symbolic `GRAVITY`, `PW`, `PH` and `EPS`, not IEEE doubles. `Math.floor`, `ceil` and `round` are the exact real functions.
- The finiteness checks of src/math/geometry/validate.ts are not modelled. The mesh constructor checks only the array lengths.
- `CHUNK_BITS`, `CHUNK_SEND_RADIUS` and `MAX_PLAYERS` come from a config file that is not part of this model. They are symbolic constants, with `CHUNK_SIZE` equal to 2 to the power `CHUNK_BITS`.
- The chunk class (src/protocol/chunk) and the chunk wire codec (src/protocol/chunk-io) are not part of this model. A chunk is an abstract class with its origin, a dirty flag, local voxels and a destroy hook, and no encode/decode property is claimed.
- Terrain generation (`generate` in src/server/bazooka-game.ts:50-79 and src/gen) is not modelled, because it depends on Perlin noise.
- `_makeColumnsFall` (src/server/bazooka-game.ts:150) is not modelled. Its only call in `tick` is commented out.
- `simulateClient` (src/protocol/physics.ts:27-33) is not modelled. Note that it passes the step length `dt` where `simObjects` expects an absolute time.
- The legacy src/server/bazooka-game.js (apart from the error value its line 54 hands to `die`, which `BazookaGame.FellError` adopts), the handshake and message parsing in src/server/conn.ts, and the socket's message parsing in src/client/socket.ts are not modelled. The model starts from the decoded message.
- The older src/client/splash.js is not modelled; src/client/splash.ts is.
- The debug block spawning under key '1' in src/client/player-controls.js and index.js is not modelled, because it is random.
- The picker's ray cast (src/client/picker.ts) is not modelled. The looked-at block is an input.
- Rendering and the walk animation are not modelled.
- Object aliasing is not modelled. `combine` shares vertex arrays between the parts and the whole, so a later in-place transform of one is visible in the other. Likewise a new missile's location is the same object as the firing player's (src/server/bazooka-game.ts:295), so moving the missile moves the player. The model copies values.
- Null arguments to the mesh operations are not modelled. The `missing args` throw covers only the missing matrices.
- Object locations are always present in the model, so every `!loc` guard passes. A player's health is optional, because the player object declares none.
- `Connections.Conn.SendStatus`: src/server/conn.ts declares no `sendStatus`, though src/server/bazooka-game.ts:84 calls it. The model gives the connection the method the game calls, recording the status message.
- A chunk's `lastModified` is never assigned in src/server/api.js, so it is modelled as always absent.
- In src/server/api.js and src/server/bazooka-game.ts the object and view lists are built for all connections before any of them is sent. The source interleaves building and sending. Nothing the lists read changes in between, so the messages are the same.
- `Vox.IsOpaque` requires the voxel to be below the table size. The source reads past the table and throws for a larger value.
- `FlexBuffers.FlexBuffer.WriteInt32LE`, `FlexBuffers.FlexBuffer.WriteUInt8`, `FlexBuffers.FlexBuffer.WriteUint8Array` and `FlexBuffers.FlexBuffer.Resize` require the new length to stay within 2^31. Beyond that, `nextPow2` wraps and the source fails. The written values must also be in the range Node accepts, or Node throws.
- `FlexBuffers.CopiedBytes` takes the array as a whole buffer. `arr.buffer.slice(start, len)` slices the underlying `ArrayBuffer` and ignores `arr.byteOffset`, so for an array that views part of a larger buffer the source copies other bytes; the model does not capture that.
- `LegacyControls.PlaceBlock` puts 0 in the `set` command it returns while `placing` is absent. The source sends `v: undefined`, which `JSON.stringify` leaves out of the message. What a chunk stores for `undefined` is decided by the chunk class (src/protocol/chunk), which is not part of this model; the model writes 0 (AIR), on the client and on a receiving server alike, and does not bound voxel values.
- `Poly8Geometry.AxisAligned` is a module-level method. The source declares `axisAligned` on the instance but its callers (src/client/draw/draw-sky.ts:6, src/client/draw/draw-players.ts:193) call it on the class.
- `PlayerControls.BreakBlock` reads the looked-at block as a parameter. In src/client/bundle.ts `breakBlock` reads `state.lookAtBlock`, which nothing assigns after start-up, while the picker writes `state.player.lookAtBlock`.
- `LegacyClientState.LegacyObj.Block`: the block is given an empty props map. The falling-block class (src/client/models/falling-block.ts:5-23) declares no `props`, so even with the missing `FallingBlock` binding of src/client/index.js:158 supplied, `Object.assign(obj.props, info.props)` at src/client/index.js:140 would throw for a block; the model follows the intended dispatch and does not capture that second failure.
- `ClientState.DataOf` leaves out `isDirty`, the player's `walk` and the block's `rotAxis`, which `JSON.stringify` also writes and `Object.assign` copies: nothing outside rendering reads them, and nothing reads `isDirty` at all.
- `BazookaGame.Game.Tick`: on a send tick its contract states only that every chunk ends clean. The messages sent are stated by `BazookaGame.Game.SendSync` and `BazookaGame.Game.KillFallen`.
- `BazookaGame.Game.SendAndCull`: likewise, it states only that every chunk ends clean. The messages are stated by the methods it calls.

## Findings

| source | as written | input that shows it | evidently intended | confidence | as-written member | corrected member |
|---|---|---|---|---|---|---|
| src/client/player-controls.ts:49-57 | `navigate` compares against `player.input`, which the player object never initialises, so the first call reads a field of undefined and throws | the first tick after a player object is created | a player with no stored input reports its current flags | low, not executed | `PlayerControls.NavigateAsWritten` | `PlayerControls.Navigate` |
| src/client/index.js:158 | `createObject` builds `new FallingBlock()`, a name that is neither imported nor defined in the file | any object of type 'block' | a falling-block object is created | medium, not executed | `ClientIndex.BlockRejectedAsWritten` | `ClientIndex.CreateObject` |
| src/math/mesh.ts:60-65 | `transform` passes offset 0, which the falsy-offset fallback on line 65 replaces by the part's own offset | transforming a combined part of 3 vertices at offset 3 into an output of 3 vertices throws 'transformed part out of range' | a whole-mesh transform writes from index 0 | medium, not executed | `Meshes.TransformRejectsParts` | `Meshes.TransformWhole` |
| src/server/bazooka-game.ts:144 | a fallen player's connection dies with `new Error('you fell')`; `die` sends it through `JSON.stringify`, which drops an `Error`'s message because it is not an enumerable own property, so the client's `msg.error.message` is `undefined` | any player below height -100 on a send tick of an active game | the client shows "you fell", as with the `{message: 'you fell'}` of src/server/bazooka-game.js:54 | medium, not executed | `BazookaGame.FellErrorAsWritten` | `BazookaGame.FellError` |
| src/protocol/flex-buffer.ts:29-37 | with a non-zero `start`, `slice(start, len)` treats `len` as an end offset, while `n` still advances by `len` | arr = [1, 2, 3, 4], start = 1, len = 2 copies only [2] | the `len` bytes from `start` are appended | high, not executed | `FlexBuffers.CopiedBytesExample` | `FlexBuffers.FlexBuffer.WriteUint8Array` |
