/**
 * The older client-side physics (src/client/physics.js).  The falling-block and
 * player rules are the same code as the shared physics; the differences are the
 * entry point `simulate` (the local player, then every falling block by the same
 * `dt`) and the player's situation, which is one of three strings.
 */
module LegacyPhysics {
  import opened Wrappers
  import opened Objects
  import Physics

  /** The situation strings `'suffocating'`, `'airborne'` and `'on-ground'`. */
  datatype Situation = Suffocating | InAir | Grounded

  /** The string the older code records for each outcome of the vertical table. */
  function SituationOf(s: Physics.Support): (r: Situation)
    ensures r == Suffocating <==> Physics.SituationOf(s) == InGround
    ensures r == InAir <==> Physics.SituationOf(s) == Airborne
    ensures r == Grounded <==> Physics.SituationOf(s) == OnGround
  {
    match s
    case Stuck => Suffocating
    case HeadBump => InAir
    case Standing => Grounded
    case Landing => Grounded
    case Free => InAir
  }

  /** The local player of the older client: position, velocity and situation string. */
  class Player {
    var location: Vec
    var velocity: Vec
    var situation: Situation

    constructor(location: Vec, velocity: Vec, situation: Situation)
      ensures this.location == location && this.velocity == velocity && this.situation == situation
    {
      this.location, this.velocity, this.situation := location, velocity, situation;
    }
  }

  datatype PlayerState = PlayerState(location: Vec, velocity: Vec, situation: Situation)

  /**
   * The player after the older `simPlayer`: it moves exactly as in the shared
   * physics, and the situation string names the same outcome, with
   * `'suffocating'` where the shared code says IN_GROUND.
   */
  function PlayerNext(p: PlayerState, collide: Physics.Collider, dt: real): (r: PlayerState)
    ensures var s := Physics.PlayerNext(Physics.Body(p.location, p.velocity, None, 0.0, 0.0), collide, dt);
      r.location == s.location && r.velocity == s.velocity
      && (r.situation == Suffocating <==> s.situation == Some(InGround))
      && (r.situation == InAir <==> s.situation == Some(Airborne))
      && (r.situation == Grounded <==> s.situation == Some(OnGround))
  {
    var m := Physics.BackOff(collide, Physics.Motion(p.location, p.velocity), |Physics.DIRS|);
    var vz := m.vel.z - Physics.GRAVITY * dt;
    var s := Physics.SupportAt(collide, m.loc, vz);
    var vz' := if s == Physics.Free then vz else 0.0;
    PlayerState(Vec(m.loc.x, m.loc.y, Physics.SettledZ(s, m.loc.z) + vz' * dt), Vec(m.vel.x, m.vel.y, vz'), SituationOf(s))
  }

  /** The vertical table of the older `simPlayer`, branch by branch, with its situation strings. */
  method VerticalTable(head: bool, legs: bool, underfoot: bool, loc0: Vec, vel0: Vec)
    returns (loc: Vec, vel: Vec, situation: Situation)
    ensures var s := Physics.SupportOf(head, legs, underfoot, vel0.z);
      loc == loc0.(z := Physics.SettledZ(s, loc0.z)) && vel == vel0.(z := if s == Physics.Free then vel0.z else 0.0)
      && situation == SituationOf(s)
  {
    loc, vel := loc0, vel0;
    if head && underfoot {
      vel := vel.(z := 0.0);
      situation := Suffocating;
    } else if head {
      vel := vel.(z := 0.0);
      situation := InAir;
      loc := loc.(z := Physics.Floor(loc.z - Physics.PH - Physics.EPS) as real + Physics.PH);
    } else if legs {
      vel := vel.(z := 0.0);
      situation := Grounded;
      loc := loc.(z := Physics.Ceil(loc.z - Physics.PW - Physics.EPS) as real + Physics.PH);
    } else if underfoot && vel.z <= 0.0 {
      vel := vel.(z := 0.0);
      situation := Grounded;
      loc := loc.(z := Physics.Ceil(loc.z - Physics.PH - Physics.EPS) as real + Physics.PH);
    } else {
      situation := InAir;
    }
  }

  /**
   * `simPlayer(state, player, dt)`: the horizontal pass, gravity, then the
   * vertical table with its situation strings.
   */
  method SimPlayer(player: Player, collide: Physics.Collider, dt: real)
    modifies player`location, player`velocity, player`situation
    ensures PlayerState(player.location, player.velocity, player.situation)
      == PlayerNext(old(PlayerState(player.location, player.velocity, player.situation)), collide, dt)
  {
    ghost var p0 := PlayerState(player.location, player.velocity, player.situation);
    var loc, vel := Physics.HorizontalPass(collide, player.location, player.velocity);
    vel := vel.(z := vel.z - Physics.GRAVITY * dt);
    var underfoot := collide(loc.x, loc.y, loc.z - Physics.PH - Physics.EPS);
    var legs := collide(loc.x, loc.y, loc.z - Physics.PW - Physics.EPS);
    var head := collide(loc.x, loc.y, loc.z + Physics.PW - Physics.EPS);
    var situation;
    loc, vel, situation := VerticalTable(head, legs, underfoot, loc, vel);
    loc := loc.(z := loc.z + vel.z * dt);
    assert PlayerState(loc, vel, situation) == PlayerNext(p0, collide, dt);
    player.location, player.velocity, player.situation := loc, vel, situation;
  }

  /**
   * `'suffocating'` is recorded exactly when, after the horizontal pass, both
   * the probe above the head and the probe under the feet collide; the player
   * is then at vertical rest and keeps its height.
   */
  lemma SuffocatingExactly(p: PlayerState, collide: Physics.Collider, dt: real)
    ensures var m := Physics.BackOff(collide, Physics.Motion(p.location, p.velocity), |Physics.DIRS|);
      var r := PlayerNext(p, collide, dt);
      (r.situation == Suffocating <==>
        collide(m.loc.x, m.loc.y, m.loc.z + Physics.PW - Physics.EPS)
        && collide(m.loc.x, m.loc.y, m.loc.z - Physics.PH - Physics.EPS))
      && (r.situation == Suffocating ==> r.velocity.z == 0.0 && r.location == m.loc)
  {
    var m := Physics.BackOff(collide, Physics.Motion(p.location, p.velocity), |Physics.DIRS|);
    var s := Physics.SupportAt(collide, m.loc, m.vel.z - Physics.GRAVITY * dt);
    assert PlayerNext(p, collide, dt).situation == SituationOf(s);
  }

  /**
   * A `'on-ground'` or `'suffocating'` player is at vertical rest, and an
   * `'on-ground'` player's feet are on a whole-number height.
   */
  lemma GroundedAtRest(p: PlayerState, collide: Physics.Collider, dt: real)
    ensures var r := PlayerNext(p, collide, dt);
      (r.situation != InAir ==> r.velocity.z == 0.0)
      && (r.situation == Grounded ==> r.location.z - Physics.PH == Physics.Floor(r.location.z - Physics.PH) as real)
  {
    Physics.PlayerGrounded(Physics.Body(p.location, p.velocity, None, 0.0, 0.0), collide, dt);
  }

  /**
   * `simFallingBlocks(state, dt)`: every block in the list takes one shared
   * falling-block step of the same `dt`.
   */
  method SimFallingBlocks(blocks: seq<GameObj>, collide: Physics.Collider, dt: real)
    requires Physics.DistinctObjs(blocks)
    modifies blocks`location, blocks`velocity, blocks`rotTheta, blocks`rotVel
    ensures forall i :: 0 <= i < |blocks| ==>
      Physics.BodyOf(blocks[i]) == Physics.BlockNext(old(Physics.BodyOf(blocks[i])), collide, dt)
  {
    for i := 0 to |blocks|
      invariant forall j :: 0 <= j < i ==>
        Physics.BodyOf(blocks[j]) == Physics.BlockNext(old(Physics.BodyOf(blocks[j])), collide, dt)
      invariant forall j :: i <= j < |blocks| ==> Physics.BodyOf(blocks[j]) == old(Physics.BodyOf(blocks[j]))
    {
      Physics.SimFallingBlock(blocks[i], collide, dt);
    }
  }

  /** `simulate(state, dt)`: the local player first, then the falling blocks. */
  method Simulate(player: Player, blocks: seq<GameObj>, collide: Physics.Collider, dt: real)
    requires Physics.DistinctObjs(blocks)
    modifies player, blocks`location, blocks`velocity, blocks`rotTheta, blocks`rotVel
    ensures PlayerState(player.location, player.velocity, player.situation)
      == PlayerNext(old(PlayerState(player.location, player.velocity, player.situation)), collide, dt)
    ensures forall i :: 0 <= i < |blocks| ==>
      Physics.BodyOf(blocks[i]) == Physics.BlockNext(old(Physics.BodyOf(blocks[i])), collide, dt)
  {
    SimPlayer(player, collide, dt);
    SimFallingBlocks(blocks, collide, dt);
  }
}
