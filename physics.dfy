/**
 * One step of the shared physics (src/protocol/physics.ts): missiles fly and stick
 * in the ground, falling blocks fall, land or bounce, and the player backs off walls
 * and settles on floors.  Every decision goes through `collide(world, x, y, z)`, and
 * that test is all the step reads of the world; the model passes it in as a function
 * value (`Collider`) built from a copy of the world's chunks (`ColliderOf`), which
 * agrees with `getVox` everywhere.  Numbers are reals; `Math.floor`, `Math.ceil` and
 * `Math.round` are written out.
 */
module Physics {
  import opened Wrappers
  import opened Objects
  import opened Chunks
  import Worlds
  import Vox

  type Positive = r: real | r > 0.0 witness 1.0

  /** `config.PLAYER_WIDTH` and `config.PLAYER_HEIGHT`: positive, otherwise unknown. */
  const PW: Positive
  const PH: Positive
  /** `config.PHYSICS.GRAVITY`. */
  const GRAVITY: real
  const EPS: real := 0.001
  const BOUNCE: real := 0.6
  const BOUNCE_DRAG: real := 0.8

  /** `Math.floor`. */
  function Floor(r: real): int {
    r.Floor
  }

  /** `Math.ceil`. */
  function Ceil(r: real): (n: int)
    ensures r <= n as real < r + 1.0
  {
    -((-r).Floor)
  }

  /** `Math.round`: halves round up. */
  function Round(r: real): (n: int)
    ensures r - 0.5 < n as real <= r + 0.5
  {
    (r + 0.5).Floor
  }

  /** `Math.abs`. */
  function Abs(r: real): (a: real)
    ensures a >= 0.0 && (a == r || a == -r)
  {
    if r < 0.0 then -r else r
  }

  /** The voxel cell holding a point. */
  function Cell(x: real, y: real, z: real): Coord {
    Coord(Floor(x), Floor(y), Floor(z))
  }

  /** `collide(world, x, y, z)` for a fixed world: the point lies in a solid voxel. */
  type Collider = (real, real, real) -> bool

  /** The voxel values of every chunk of a world, by chunk origin. */
  function Snapshot(world: Worlds.World): (snap: map<Coord, map<Coord, int>>)
    reads world, world.chunkTable.Values
    ensures snap.Keys == world.chunkTable.Keys
    ensures forall k :: k in snap ==> snap[k] == world.chunkTable[k].voxels
  {
    map k | k in world.chunkTable :: world.chunkTable[k].voxels
  }

  /** `getVox` read from a snapshot. */
  function SnapshotVox(snap: map<Coord, map<Coord, int>>, p: Coord): int {
    var o := OriginOf(p);
    if o !in snap then Vox.OFF_WORLD
    else if LocalOf(p) in snap[o] then snap[o][LocalOf(p)]
    else 0
  }

  /** A snapshot reads the same voxel as the world it was taken from, everywhere. */
  lemma SnapshotAgrees(world: Worlds.World)
    ensures forall p :: SnapshotVox(Snapshot(world), p) == world.GetVox(p)
  {
    forall p ensures SnapshotVox(Snapshot(world), p) == world.GetVox(p) {
      var o := OriginOf(p);
      if o in world.chunkTable {
        assert world.GetVox(p) == world.chunkTable[o].GetVox(LocalOf(p));
      }
    }
  }

  /**
   * `collide(world, ·, ·, ·)`: a point collides iff `getVox` of the cell holding it
   * reads above 1; a cell with no chunk reads OFF_WORLD (-1) and is passable.
   */
  function ColliderOf(world: Worlds.World): (collide: Collider)
    reads world, world.chunkTable.Values
    ensures forall x: real, y: real, z: real :: collide(x, y, z) == (world.GetVox(Cell(x, y, z)) > 1)
  {
    SnapshotAgrees(world);
    var snap := Snapshot(world);
    (x: real, y: real, z: real) => SnapshotVox(snap, Cell(x, y, z)) > 1
  }

  /** Position after moving for `dt` at a constant velocity. */
  function Move(loc: Vec, vel: Vec, dt: real): Vec {
    Vec(loc.x + vel.x * dt, loc.y + vel.y * dt, loc.z + vel.z * dt)
  }

  function Speed2(v: Vec): real {
    v.x * v.x + v.y * v.y + v.z * v.z
  }

  /** The fields of a game object that a simulation step writes. */
  datatype Body = Body(location: Vec, velocity: Vec, situation: Option<ObjSituation>, rotTheta: real, rotVel: real)

  function BodyOf(o: GameObj): Body
    reads o
  {
    Body(o.location, o.velocity, o.situation, o.rotTheta, o.rotVel)
  }

  // ---------------------------------------------------------------- missiles

  /**
   * A missile after `simMissile`: moved by its old velocity, gravity applied to
   * the vertical speed, IN_GROUND when the new position collides (otherwise the
   * situation stays what it was).
   */
  function MissileNext(b: Body, collide: Collider, dt: real): Body {
    var loc := Move(b.location, b.velocity, dt);
    b.(location := loc, velocity := b.velocity.(z := b.velocity.z - GRAVITY * dt),
       situation := if collide(loc.x, loc.y, loc.z) then Some(InGround) else b.situation)
  }

  /** `simMissile(obj, world, dt)`. */
  method SimMissile(m: GameObj, collide: Collider, dt: real)
    modifies m`location, m`velocity, m`situation
    ensures BodyOf(m) == MissileNext(old(BodyOf(m)), collide, dt)
  {
    var loc := Move(m.location, m.velocity, dt);
    var vel := m.velocity.(z := m.velocity.z - GRAVITY * dt);
    var situation := m.situation;
    if collide(loc.x, loc.y, loc.z) {
      situation := Some(InGround);
    }
    m.location, m.velocity, m.situation := loc, vel, situation;
  }

  /** A missile over successive ticks of lengths `dts`. */
  function MissileRun(b: Body, collide: Collider, dts: seq<real>): (r: Body)
    decreases |dts|
  {
    if dts == [] then b else MissileRun(MissileNext(b, collide, dts[0]), collide, dts[1..])
  }

  /**
   * A missile is IN_GROUND after a step exactly when its new position collides or it
   * already was; horizontally it keeps its speed and only gravity acts.
   */
  lemma MissileStep(b: Body, collide: Collider, dt: real)
    ensures var r := MissileNext(b, collide, dt);
      (r.situation == Some(InGround) <==> collide(r.location.x, r.location.y, r.location.z) || b.situation == Some(InGround))
      && r.velocity.x == b.velocity.x && r.velocity.y == b.velocity.y
      && r.velocity.z == b.velocity.z - GRAVITY * dt
  {
  }

  /** Once IN_GROUND, a missile stays IN_GROUND whatever the later ticks. */
  lemma {:induction false} MissileStaysInGround(b: Body, collide: Collider, dts: seq<real>)
    requires b.situation == Some(InGround)
    ensures MissileRun(b, collide, dts).situation == Some(InGround)
    decreases |dts|
  {
    if dts != [] {
      MissileStaysInGround(MissileNext(b, collide, dts[0]), collide, dts[1..]);
    }
  }

  // ---------------------------------------------------------- falling blocks

  /** The six probes around a block's centre. */
  datatype Contacts = Contacts(negX: bool, posX: bool, negY: bool, posY: bool, negZ: bool, posZ: bool) {
    predicate Any() {
      negX || posX || negY || posY || negZ || posZ
    }
  }

  /** Which faces of a block at `loc` touch solid ground (the floor probe reaches 0.51 down). */
  function Probe(collide: Collider, loc: Vec): Contacts {
    Contacts(
      collide(loc.x - 0.5, loc.y, loc.z), collide(loc.x + 0.5, loc.y, loc.z),
      collide(loc.x, loc.y - 0.5, loc.z), collide(loc.x, loc.y + 0.5, loc.z),
      collide(loc.x, loc.y, loc.z - 0.51), collide(loc.x, loc.y, loc.z + 0.5))
  }

  /**
   * The bounce on one axis: contact on the negative side sends the component
   * positive, then contact on the positive side sends it negative (so the positive
   * side wins); each bounce keeps 0.6 of the magnitude.
   */
  function BounceAxis(v: real, neg: bool, pos: bool): (r: real)
    ensures pos ==> r <= 0.0
    ensures neg && !pos ==> r >= 0.0
    ensures !neg && !pos ==> r == v
    ensures neg || pos ==> Abs(r) <= BOUNCE * Abs(v)
  {
    var afterNeg := if neg then Abs(v) * BOUNCE else v;
    if pos then -Abs(afterNeg) * BOUNCE else afterNeg
  }

  /**
   * The velocity after a bounce: each touching axis points away from its contact,
   * and with any contact every component keeps 0.8 of itself.  No component grows.
   */
  function Bounce(v: Vec, c: Contacts): (r: Vec)
    ensures (c.posX ==> r.x <= 0.0) && (c.negX && !c.posX ==> r.x >= 0.0)
    ensures (c.posY ==> r.y <= 0.0) && (c.negY && !c.posY ==> r.y >= 0.0)
    ensures (c.posZ ==> r.z <= 0.0) && (c.negZ && !c.posZ ==> r.z >= 0.0)
    ensures Abs(r.x) <= Abs(v.x) && Abs(r.y) <= Abs(v.y) && Abs(r.z) <= Abs(v.z)
    ensures !c.Any() ==> r == v
  {
    var b := Vec(BounceAxis(v.x, c.negX, c.posX), BounceAxis(v.y, c.negY, c.posY), BounceAxis(v.z, c.negZ, c.posZ));
    if c.Any() then Vec(b.x * BOUNCE_DRAG, b.y * BOUNCE_DRAG, b.z * BOUNCE_DRAG) else b
  }

  /** `Math.round(c - 0.5) + 0.5`: the centre of the unit cell holding `c`. */
  function Snap(c: real): (r: real)
    ensures r == Floor(c) as real + 0.5
  {
    Round(c - 0.5) as real + 0.5
  }

  /**
   * A falling block after `simFallingBlock`.  It spins and moves by its old
   * velocity; then, by the floor probe at the new position: no floor, gravity acts
   * on the vertical speed alone; a floor and a speed below 1, it stops dead in the
   * centre of its cell; a floor at speed, it bounces and its spin angle halves.
   */
  function BlockNext(b: Body, collide: Collider, dt: real): Body {
    var v0 := b.velocity;
    var loc := Move(b.location, v0, dt);
    var theta := b.rotTheta + b.rotVel * dt;
    var c := Probe(collide, loc);
    if !c.negZ then
      b.(location := loc, velocity := v0.(z := v0.z - GRAVITY * dt), rotTheta := theta)
    else if Speed2(v0) < 1.0 then
      b.(location := Vec(Snap(loc.x), Snap(loc.y), Snap(loc.z)), velocity := ZERO, rotTheta := 0.0, rotVel := 0.0)
    else
      b.(location := loc, velocity := Bounce(v0, c), rotTheta := theta * 0.5)
  }

  /** The bounce branch of `simFallingBlock`, axis by axis in the source's order. */
  method BounceVelocity(v: Vec, c: Contacts) returns (vel: Vec)
    ensures vel == Bounce(v, c)
  {
    vel := v;
    if c.negX { vel := vel.(x := Abs(vel.x) * BOUNCE); }
    if c.posX { vel := vel.(x := -Abs(vel.x) * BOUNCE); }
    assert vel.x == BounceAxis(v.x, c.negX, c.posX);
    if c.negY { vel := vel.(y := Abs(vel.y) * BOUNCE); }
    if c.posY { vel := vel.(y := -Abs(vel.y) * BOUNCE); }
    assert vel.y == BounceAxis(v.y, c.negY, c.posY);
    if c.negZ { vel := vel.(z := Abs(vel.z) * BOUNCE); }
    if c.posZ { vel := vel.(z := -Abs(vel.z) * BOUNCE); }
    assert vel.z == BounceAxis(v.z, c.negZ, c.posZ);
    if c.Any() {
      vel := Vec(vel.x * BOUNCE_DRAG, vel.y * BOUNCE_DRAG, vel.z * BOUNCE_DRAG);
    }
  }

  /** `simFallingBlock(block, world, dt)`. */
  method SimFallingBlock(block: GameObj, collide: Collider, dt: real)
    modifies block`location, block`velocity, block`rotTheta, block`rotVel
    ensures BodyOf(block) == BlockNext(old(BodyOf(block)), collide, dt)
  {
    var theta, spin := block.rotTheta, block.rotVel;
    theta := theta + spin * dt;
    var loc, vel := block.location, block.velocity;
    loc := Move(loc, vel, dt);
    var vel2 := Speed2(vel);
    var c := Probe(collide, loc);
    if !c.negZ {
      vel := vel.(z := vel.z - GRAVITY * dt);
    } else if vel2 < 1.0 {
      loc := Vec(Snap(loc.x), Snap(loc.y), Snap(loc.z));
      vel := ZERO;
      theta, spin := 0.0, 0.0;
    } else {
      theta := theta * 0.5;
      vel := BounceVelocity(vel, c);
    }
    block.location, block.velocity, block.rotTheta, block.rotVel := loc, vel, theta, spin;
  }

  /** A falling block over successive ticks of lengths `dts`. */
  function BlockRun(b: Body, collide: Collider, dts: seq<real>): (r: Body)
    decreases |dts|
  {
    if dts == [] then b else BlockRun(BlockNext(b, collide, dts[0]), collide, dts[1..])
  }

  /** `c` is the centre of a unit cell. */
  predicate Centred(c: real) {
    c == Floor(c) as real + 0.5
  }

  /** A block that stops comes to rest still, unturned, in the centre of its cell. */
  lemma BlockStops(b: Body, collide: Collider, dt: real)
    requires Probe(collide, Move(b.location, b.velocity, dt)).negZ && Speed2(b.velocity) < 1.0
    ensures var r := BlockNext(b, collide, dt);
      r.velocity == ZERO && r.rotTheta == 0.0 && r.rotVel == 0.0
      && Centred(r.location.x) && Centred(r.location.y) && Centred(r.location.z)
  {
    var loc := Move(b.location, b.velocity, dt);
    CentreOfCell(Floor(loc.x), Snap(loc.x));
    CentreOfCell(Floor(loc.y), Snap(loc.y));
    CentreOfCell(Floor(loc.z), Snap(loc.z));
  }

  /** The point half way across cell `n` is centred. */
  lemma CentreOfCell(n: int, r: real)
    requires r == n as real + 0.5
    ensures Centred(r)
  {
    assert Floor(r) == n;
  }

  /** A block resting on a floor, still and centred, stays exactly where it is. */
  lemma BlockAtRestStays(b: Body, collide: Collider, dt: real)
    requires b.velocity == ZERO && b.rotTheta == 0.0 && b.rotVel == 0.0
    requires Centred(b.location.x) && Centred(b.location.y) && Centred(b.location.z)
    requires Probe(collide, b.location).negZ
    ensures BlockNext(b, collide, dt) == b
  {
    assert Move(b.location, b.velocity, dt) == b.location;
  }

  /** ... and so it stays at rest over any number of ticks. */
  lemma {:induction false} BlockRestsForever(b: Body, collide: Collider, dts: seq<real>)
    requires b.velocity == ZERO && b.rotTheta == 0.0 && b.rotVel == 0.0
    requires Centred(b.location.x) && Centred(b.location.y) && Centred(b.location.z)
    requires Probe(collide, b.location).negZ
    ensures BlockRun(b, collide, dts) == b
    decreases |dts|
  {
    if dts != [] {
      BlockRestsForever(b, collide, dts[1..]);
      BlockAtRestStays(b, collide, dts[0]);
    }
  }

  /** A square grows with the magnitude. */
  lemma SquareMonotone(a: real, b: real)
    requires Abs(a) <= Abs(b)
    ensures a * a <= b * b
  {
    var x, y := Abs(a), Abs(b);
    assert a * a == x * x && b * b == y * y;
    ProductNonNegative(x, y - x);
    ProductNonNegative(y, y - x);
    assert y * y - x * x == x * (y - x) + y * (y - x);
  }

  lemma ProductNonNegative(x: real, d: real)
    requires x >= 0.0 && d >= 0.0
    ensures x * d >= 0.0
  {
  }

  /** The drag keeps at most 0.64 of the square of a component no larger than `v`. */
  lemma DragSquare(a: real, v: real, r: real)
    requires Abs(a) <= Abs(v) && r == a * BOUNCE_DRAG
    ensures r * r <= BOUNCE_DRAG * BOUNCE_DRAG * (v * v)
  {
    SquareMonotone(a, v);
    assert r * r == BOUNCE_DRAG * BOUNCE_DRAG * (a * a);
  }

  /** A bounce off anything keeps at most 0.64 of the kinetic energy. */
  lemma BounceLosesEnergy(v: Vec, c: Contacts)
    requires c.Any()
    ensures Speed2(Bounce(v, c)) <= BOUNCE_DRAG * BOUNCE_DRAG * Speed2(v)
  {
    var r, k := Bounce(v, c), BOUNCE_DRAG * BOUNCE_DRAG;
    assert r.x * r.x <= k * (v.x * v.x) by {
      DragSquare(BounceAxis(v.x, c.negX, c.posX), v.x, r.x);
    }
    assert r.y * r.y <= k * (v.y * v.y) by {
      DragSquare(BounceAxis(v.y, c.negY, c.posY), v.y, r.y);
    }
    assert r.z * r.z <= k * (v.z * v.z) by {
      DragSquare(BounceAxis(v.z, c.negZ, c.posZ), v.z, r.z);
    }
    SpeedBound(r, v, k);
  }

  /** Component-wise bounds on the squares bound the squared speed. */
  lemma SpeedBound(r: Vec, v: Vec, k: real)
    requires r.x * r.x <= k * (v.x * v.x) && r.y * r.y <= k * (v.y * v.y) && r.z * r.z <= k * (v.z * v.z)
    ensures Speed2(r) <= k * Speed2(v)
  {
  }

  // ------------------------------------------------------------ all objects

  ghost predicate DistinctObjs(objs: seq<GameObj>) {
    forall i, j :: 0 <= i < j < |objs| ==> objs[i] != objs[j]
  }

  /**
   * The effect of `simObjects` on one object: a falling block or a missile takes a
   * step of `nowMs - lastUpdateMs`; any other object is left alone.
   */
  function ObjNext(t: ObjType, lastUpdateMs: real, b: Body, collide: Collider, nowMs: real): Body {
    match t
    case FallingBlockType => BlockNext(b, collide, nowMs - lastUpdateMs)
    case MissileType => MissileNext(b, collide, nowMs - lastUpdateMs)
    case _ => b
  }

  /** The body of the `simObjects` loop for one object. */
  method SimObject(obj: GameObj, collide: Collider, nowMs: real)
    modifies obj`location, obj`velocity, obj`situation, obj`rotTheta, obj`rotVel
    ensures BodyOf(obj) == ObjNext(obj.objType, obj.lastUpdateMs, old(BodyOf(obj)), collide, nowMs)
  {
    var dt := nowMs - obj.lastUpdateMs;
    match obj.objType {
      case FallingBlockType => SimFallingBlock(obj, collide, dt);
      case MissileType => SimMissile(obj, collide, dt);
      case _ =>
    }
  }

  /**
   * `simObjects(objects, world, nowMs)`: each falling block and missile is stepped
   * by `nowMs - lastUpdateMs`; every other object is left alone.  The objects are
   * the values of the game's object table, so none appears twice.
   */
  method SimObjects(objects: seq<GameObj>, collide: Collider, nowMs: real)
    requires DistinctObjs(objects)
    modifies objects`location, objects`velocity, objects`situation, objects`rotTheta, objects`rotVel
    ensures forall i :: 0 <= i < |objects| ==>
      BodyOf(objects[i]) == ObjNext(objects[i].objType, objects[i].lastUpdateMs, old(BodyOf(objects[i])), collide, nowMs)
  {
    for i := 0 to |objects|
      invariant forall j :: 0 <= j < i ==>
        BodyOf(objects[j]) == ObjNext(objects[j].objType, objects[j].lastUpdateMs, old(BodyOf(objects[j])), collide, nowMs)
      invariant forall j :: i <= j < |objects| ==> BodyOf(objects[j]) == old(BodyOf(objects[j]))
    {
      SimObject(objects[i], collide, nowMs);
    }
  }

  // ------------------------------------------------------------------ player

  /** `HORIZONTAL_COLLISION_DIRS`: a probe at each side, at foot level and one below. */
  const DIRS: seq<Vec> := [
    Vec(PW as real, 0.0, 0.0), Vec(PW as real, 0.0, -1.0),
    Vec(-(PW as real), 0.0, 0.0), Vec(-(PW as real), 0.0, -1.0),
    Vec(0.0, PW as real, 0.0), Vec(0.0, PW as real, -1.0),
    Vec(0.0, -(PW as real), 0.0), Vec(0.0, -(PW as real), -1.0)]

  datatype Motion = Motion(loc: Vec, vel: Vec)

  /**
   * One probe of the horizontal pass: when the probe point collides, the player
   * backs off to just inside the wall's neighbouring cell and that axis's velocity
   * becomes 0 (never reversed); height and vertical speed are untouched.
   */
  function BackOffStep(collide: Collider, m: Motion, dir: Vec): (r: Motion)
    ensures r.loc.z == m.loc.z && r.vel.z == m.vel.z
    ensures (r.vel.x == m.vel.x || r.vel.x == 0.0) && (r.vel.y == m.vel.y || r.vel.y == 0.0)
    ensures !collide(m.loc.x + dir.x, m.loc.y + dir.y, m.loc.z + dir.z) ==> r == m
    ensures collide(m.loc.x + dir.x, m.loc.y + dir.y, m.loc.z + dir.z) && dir.x > 0.0 ==>
      r.vel.x == 0.0 && Floor(r.loc.x + PW) == Ceil(m.loc.x) - 1
    ensures collide(m.loc.x + dir.x, m.loc.y + dir.y, m.loc.z + dir.z) && dir.x < 0.0 ==>
      r.vel.x == 0.0 && Floor(r.loc.x - PW) == Floor(m.loc.x)
    ensures collide(m.loc.x + dir.x, m.loc.y + dir.y, m.loc.z + dir.z) && dir.y > 0.0 ==>
      r.vel.y == 0.0 && Floor(r.loc.y + PW) == Ceil(m.loc.y) - 1
    ensures collide(m.loc.x + dir.x, m.loc.y + dir.y, m.loc.z + dir.z) && dir.y < 0.0 ==>
      r.vel.y == 0.0 && Floor(r.loc.y - PW) == Floor(m.loc.y)
  {
    if !collide(m.loc.x + dir.x, m.loc.y + dir.y, m.loc.z + dir.z) then m
    else
      var x := if dir.x > 0.0 then Ceil(m.loc.x) as real - PW - EPS
        else if dir.x < 0.0 then Floor(m.loc.x) as real + PW + EPS else m.loc.x;
      var y := if dir.y > 0.0 then Ceil(m.loc.y) as real - PW - EPS
        else if dir.y < 0.0 then Floor(m.loc.y) as real + PW + EPS else m.loc.y;
      Motion(Vec(x, y, m.loc.z),
        Vec(if dir.x != 0.0 then 0.0 else m.vel.x, if dir.y != 0.0 then 0.0 else m.vel.y, m.vel.z))
  }

  /** The horizontal pass over the first `n` probes, in order. */
  function BackOff(collide: Collider, m: Motion, n: nat): Motion
    requires n <= |DIRS|
  {
    if n == 0 then m else BackOffStep(collide, BackOff(collide, m, n - 1), DIRS[n - 1])
  }

  /** The whole horizontal pass only ever zeroes velocity, and never moves the player vertically. */
  lemma {:induction false} BackOffNeverReverses(collide: Collider, m: Motion, n: nat)
    requires n <= |DIRS|
    ensures var r := BackOff(collide, m, n);
      r.loc.z == m.loc.z && r.vel.z == m.vel.z
      && (r.vel.x == m.vel.x || r.vel.x == 0.0) && (r.vel.y == m.vel.y || r.vel.y == 0.0)
  {
    if n > 0 {
      BackOffNeverReverses(collide, m, n - 1);
    }
  }

  /** The `forEach` over HORIZONTAL_COLLISION_DIRS, each probe seeing the position left by the previous ones. */
  method HorizontalPass(collide: Collider, loc0: Vec, vel0: Vec) returns (loc: Vec, vel: Vec)
    ensures Motion(loc, vel) == BackOff(collide, Motion(loc0, vel0), |DIRS|)
  {
    loc, vel := loc0, vel0;
    for i := 0 to |DIRS|
      invariant Motion(loc, vel) == BackOff(collide, Motion(loc0, vel0), i)
    {
      var dir := DIRS[i];
      var hit := collide(loc.x + dir.x, loc.y + dir.y, loc.z + dir.z);
      if hit {
        if dir.x > 0.0 { loc := loc.(x := Ceil(loc.x) as real - PW - EPS); }
        if dir.x < 0.0 { loc := loc.(x := Floor(loc.x) as real + PW + EPS); }
        if dir.y > 0.0 { loc := loc.(y := Ceil(loc.y) as real - PW - EPS); }
        if dir.y < 0.0 { loc := loc.(y := Floor(loc.y) as real + PW + EPS); }
        if dir.x != 0.0 { vel := vel.(x := 0.0); }
        if dir.y != 0.0 { vel := vel.(y := 0.0); }
      }
    }
  }

  /** How the vertical probes resolve: stuck in a block, head bump, standing, landing, or in the air. */
  datatype Support = Stuck | HeadBump | Standing | Landing | Free

  /**
   * The vertical table of `simPlayer`, from the probes above the head, at the legs
   * and under the feet, and the vertical speed after gravity.
   */
  function SupportOf(head: bool, legs: bool, underfoot: bool, vz: real): (r: Support)
    ensures r == Stuck <==> head && underfoot
    ensures r == HeadBump <==> head && !underfoot
    ensures r == Standing <==> !head && legs
    ensures r == Landing <==> !head && !legs && underfoot && vz <= 0.0
    ensures r == Free <==> !head && !legs && !(underfoot && vz <= 0.0)
  {
    if head && underfoot then Stuck
    else if head then HeadBump
    else if legs then Standing
    else if underfoot && vz <= 0.0 then Landing
    else Free
  }

  /** The support of a player at `loc` with vertical speed `vz`. */
  function SupportAt(collide: Collider, loc: Vec, vz: real): Support {
    SupportOf(collide(loc.x, loc.y, loc.z + PW - EPS), collide(loc.x, loc.y, loc.z - PW - EPS),
      collide(loc.x, loc.y, loc.z - PH - EPS), vz)
  }

  /**
   * The height the vertical table leaves before the final move: a head bump drops
   * the feet onto the cell boundary below, standing or landing lifts them onto
   * the boundary above; otherwise the height is kept.
   */
  function SettledZ(s: Support, z: real): (r: real)
    ensures s == HeadBump ==> r - PH == Floor(z - PH - EPS) as real && r <= z - EPS
    ensures s == Standing ==> r - PH == Ceil(z - PW - EPS) as real && r >= z - PW - EPS + PH
    ensures s == Landing ==> r - PH == Ceil(z - PH - EPS) as real && r >= z - EPS
    ensures s == Stuck || s == Free ==> r == z
  {
    match s
    case HeadBump => Floor(z - PH - EPS) as real + PH
    case Standing => Ceil(z - PW - EPS) as real + PH
    case Landing => Ceil(z - PH - EPS) as real + PH
    case _ => z
  }

  /** The situation the shared physics records for a support. */
  function SituationOf(s: Support): ObjSituation {
    match s
    case Stuck => InGround
    case HeadBump => Airborne
    case Standing => OnGround
    case Landing => OnGround
    case Free => Airborne
  }

  /**
   * The player after `simPlayer`: the horizontal pass, gravity, the vertical
   * table, then the move by the (possibly zeroed) vertical speed.
   */
  function PlayerNext(b: Body, collide: Collider, dt: real): Body {
    var m := BackOff(collide, Motion(b.location, b.velocity), |DIRS|);
    var vz := m.vel.z - GRAVITY * dt;
    var s := SupportAt(collide, m.loc, vz);
    var vz' := if s == Free then vz else 0.0;
    b.(location := Vec(m.loc.x, m.loc.y, SettledZ(s, m.loc.z) + vz' * dt),
       velocity := Vec(m.vel.x, m.vel.y, vz'), situation := Some(SituationOf(s)))
  }

  /**
   * The vertical table of `simPlayer` as the source writes it, one branch per
   * support, given the three probes and the motion after gravity.
   */
  method VerticalTable(head: bool, legs: bool, underfoot: bool, loc0: Vec, vel0: Vec)
    returns (loc: Vec, vel: Vec, situation: ObjSituation)
    ensures var s := SupportOf(head, legs, underfoot, vel0.z);
      loc == loc0.(z := SettledZ(s, loc0.z)) && vel == vel0.(z := if s == Free then vel0.z else 0.0)
      && situation == SituationOf(s)
  {
    loc, vel := loc0, vel0;
    if head && underfoot {
      vel := vel.(z := 0.0);
      situation := InGround;
    } else if head {
      vel := vel.(z := 0.0);
      situation := Airborne;
      loc := loc.(z := Floor(loc.z - PH - EPS) as real + PH);
    } else if legs {
      vel := vel.(z := 0.0);
      situation := OnGround;
      loc := loc.(z := Ceil(loc.z - PW - EPS) as real + PH);
    } else if underfoot && vel.z <= 0.0 {
      vel := vel.(z := 0.0);
      situation := OnGround;
      loc := loc.(z := Ceil(loc.z - PH - EPS) as real + PH);
    } else {
      situation := Airborne;
    }
  }

  /** `simPlayer(player, world, dt)`. */
  method SimPlayer(player: GameObj, collide: Collider, dt: real)
    modifies player`location, player`velocity, player`situation
    ensures BodyOf(player) == PlayerNext(old(BodyOf(player)), collide, dt)
  {
    var loc, vel := HorizontalPass(collide, player.location, player.velocity);
    vel := vel.(z := vel.z - GRAVITY * dt);
    var underfoot := collide(loc.x, loc.y, loc.z - PH - EPS);
    var legs := collide(loc.x, loc.y, loc.z - PW - EPS);
    var head := collide(loc.x, loc.y, loc.z + PW - EPS);
    var situation;
    loc, vel, situation := VerticalTable(head, legs, underfoot, loc, vel);
    loc := loc.(z := loc.z + vel.z * dt);
    player.location, player.velocity, player.situation := loc, vel, Some(situation);
  }

  /** The horizontal speed of a player never grows in a step, nor changes sign. */
  lemma PlayerHorizontalNeverGrows(b: Body, collide: Collider, dt: real)
    ensures var r := PlayerNext(b, collide, dt);
      (r.velocity.x == b.velocity.x || r.velocity.x == 0.0) && (r.velocity.y == b.velocity.y || r.velocity.y == 0.0)
  {
    BackOffNeverReverses(collide, Motion(b.location, b.velocity), |DIRS|);
  }

  /**
   * After a step a player is ON_GROUND or IN_GROUND only at vertical rest; ON_GROUND
   * feet stand on a whole-number height.
   */
  lemma PlayerGrounded(b: Body, collide: Collider, dt: real)
    ensures var r := PlayerNext(b, collide, dt);
      (r.situation == Some(OnGround) || r.situation == Some(InGround) ==> r.velocity.z == 0.0)
      && (r.situation == Some(OnGround) ==> r.location.z - PH == Floor(r.location.z - PH) as real)
  {
    var m := BackOff(collide, Motion(b.location, b.velocity), |DIRS|);
    var s := SupportAt(collide, m.loc, m.vel.z - GRAVITY * dt);
    if s == Standing || s == Landing {
      var n := if s == Standing then Ceil(m.loc.z - PW - EPS) else Ceil(m.loc.z - PH - EPS);
      assert PlayerNext(b, collide, dt).location.z - PH == n as real;
    }
  }
}
