/**
 * The player's controls in the current client (src/client/player-controls.ts):
 * detecting a change of the movement keys, turning the view with the mouse, and
 * the block edits the mouse triggers.  The older controls reuse the view and
 * block rules (player_controls_legacy.dfy).
 */
module PlayerControls {
  import opened Wrappers
  import opened Objects
  import opened Chunks
  import opened Worlds
  import opened ClientState
  import Interest

  /** `vox.INDEX.AIR` and `vox.INDEX.WATER` (see `Vox.IndexInvertsTypes`). */
  const AIR: int := 0
  const WATER: int := 1

  /** `Math.PI`. */
  const PI: real := 3.141592653589793

  /** `config.MOUSE_SENSITIVITY`: radians turned per pixel of mouse movement. */
  const MOUSE_SENSITIVITY: real

  // Movement keys

  /** The six movement flags the shell reports this tick. */
  function InputOf(shell: Shell): Input {
    Input(shell.WasDown("nav-forward"), shell.WasDown("nav-back"), shell.WasDown("nav-left"),
          shell.WasDown("nav-right"), shell.WasDown("nav-sprint"), shell.WasDown("nav-jump"))
  }

  /**
   * `navigate(player)` as written: it reads the six flags of `player.input`
   * without checking that the record exists, so a player that never had one
   * makes it throw.
   */
  function NavigateAsWritten(shell: Shell, prev: Option<Input>): (r: Result<Option<Input>>)
    ensures r.Err? <==> prev.None?
    ensures r.Ok? ==> (r.value.None? <==> prev.value == InputOf(shell))
    ensures r.Ok? && r.value.Some? ==> r.value.value == InputOf(shell)
  {
    if prev.None? then Err("Cannot read property 'forward' of undefined")
    else
      var i := prev.value;
      var cur := InputOf(shell);
      if cur.forward != i.forward || cur.back != i.back || cur.left != i.left
         || cur.right != i.right || cur.sprint != i.sprint || cur.jump != i.jump
      then Ok(Some(cur))
      else Ok(None)
  }

  /**
   * `navigate(player)` with a missing record read as "changed": nothing when the
   * six flags equal the player's last input, the six current flags otherwise.
   */
  function Navigate(shell: Shell, prev: Option<Input>): (r: Option<Input>)
    ensures r.None? <==> prev == Some(InputOf(shell))
    ensures r.Some? ==> r.value == InputOf(shell)
    ensures prev.Some? ==> NavigateAsWritten(shell, prev) == Ok(r)
  {
    if prev.None? then Some(InputOf(shell))
    else NavigateAsWritten(shell, prev).value
  }

  /** Once the tick stores what `navigate` reported, the same keys report nothing. */
  lemma NavigateSettles(shell: Shell, prev: Option<Input>)
    ensures var r := Navigate(shell, prev);
      Navigate(shell, if r.Some? then r else prev) == None
  {
  }

  // Looking around

  /** JavaScript `a % m` on numbers, for m > 0: the remainder takes the sign of a. */
  function FMod(a: real, m: real): (r: real)
    requires m > 0.0
    ensures -m < r < m
    ensures a >= 0.0 ==> 0.0 <= r
    ensures a <= 0.0 ==> r <= 0.0
    ensures 0.0 <= a < m ==> r == a
  {
    var q := a / m;
    var t := Interest.Trunc(q);
    QuotientSign(a, m);
    RemainderFacts(a, m, t);
    a - t as real * m
  }

  /** The quotient a / m has the sign of a, and lies in [0, 1) when a does in [0, m). */
  lemma QuotientSign(a: real, m: real)
    requires m > 0.0
    ensures a >= 0.0 ==> a / m >= 0.0
    ensures a <= 0.0 ==> a / m <= 0.0
    ensures a < m ==> a / m < 1.0
    ensures m <= a ==> 1.0 <= a / m
    ensures a < 2.0 * m ==> a / m < 2.0
  {
    var q := a / m;
    assert q * m == a;
    assert (q - 1.0) * m == a - m;
    assert (q - 2.0) * m == a - 2.0 * m;
    MulSign(q, m);
    MulSign(q - 1.0, m);
    MulSign(q - 2.0, m);
  }

  /** a - t*m is the fraction a/m - t of m, so it has that fraction's sign and stays below m in size. */
  lemma RemainderFacts(a: real, m: real, t: int)
    requires m > 0.0
    ensures -1.0 < a / m - t as real < 1.0 ==> -m < a - t as real * m < m
    ensures 0.0 <= a / m - t as real ==> 0.0 <= a - t as real * m
    ensures a / m - t as real <= 0.0 ==> a - t as real * m <= 0.0
  {
    var q := a / m;
    var f := q - t as real;
    assert q * m == a;
    assert a - t as real * m == f * m;
    assert (1.0 - f) * m == m - f * m;
    assert (1.0 + f) * m == m + f * m;
    if -1.0 < f < 1.0 {
      MulSign(1.0 - f, m);
      MulSign(1.0 + f, m);
    }
    MulSign(f, m);
  }

  /** The sign of a product with a positive factor is the sign of the other factor. */
  lemma MulSign(x: real, m: real)
    requires m > 0.0
    ensures x > 0.0 ==> x * m > 0.0
    ensures x >= 0.0 ==> x * m >= 0.0
    ensures x < 0.0 ==> x * m < 0.0
    ensures x <= 0.0 ==> x * m <= 0.0
  {
  }

  /**
   * The azimuth wrap `(az + 2π) % (2π)`: in [0, 2π) whenever az >= -2π (in
   * particular after any turn of less than a full circle from [0, 2π)), and a
   * value already in [0, 2π) is kept.
   */
  function WrapAzimuth(az: real): (r: real)
    ensures -2.0 * PI < r < 2.0 * PI
    ensures az >= -2.0 * PI ==> 0.0 <= r < 2.0 * PI
    ensures az < -2.0 * PI ==> r <= 0.0
    ensures -2.0 * PI <= az < 0.0 ==> r == az + 2.0 * PI
    ensures 0.0 <= az < 2.0 * PI ==> r == az
  {
    var a := az + 2.0 * PI;
    FModShift(a, 2.0 * PI);
    FMod(a, 2.0 * PI)
  }

  /** Between m and 2m the remainder is the value less one m. */
  lemma FModShift(a: real, m: real)
    requires m > 0.0
    ensures m <= a < 2.0 * m ==> FMod(a, m) == a - m
  {
    QuotientSign(a, m);
    if m <= a < 2.0 * m {
      assert Interest.Trunc(a / m) == 1;
    }
  }

  /** The altitude clamp: within [-π/2, π/2], and a value already there is kept. */
  function ClampAltitude(alt: real): (r: real)
    ensures -0.5 * PI <= r <= 0.5 * PI
    ensures -0.5 * PI <= alt <= 0.5 * PI ==> r == alt
    ensures alt < -0.5 * PI ==> r == -0.5 * PI
    ensures alt > 0.5 * PI ==> r == 0.5 * PI
  {
    var lo := if alt < -0.5 * PI then -0.5 * PI else alt;
    if 0.5 * PI < lo then 0.5 * PI else lo
  }

  /** The direction after the mouse moved by (dx, dy) pixels. */
  function Turned(dir: Dir, shell: Shell): (r: Dir)
    ensures -0.5 * PI <= r.altitude <= 0.5 * PI
    ensures -2.0 * PI < r.azimuth < 2.0 * PI
  {
    var dx := shell.mouseX - shell.prevMouseX;
    var dy := shell.mouseY - shell.prevMouseY;
    Dir(WrapAzimuth(dir.azimuth - dx * MOUSE_SENSITIVITY), ClampAltitude(dir.altitude - dy * MOUSE_SENSITIVITY))
  }

  /**
   * `look(player)`: the mouse turns the player; the altitude always ends within
   * [-π/2, π/2] and the azimuth within [0, 2π) unless one tick turned the view
   * back by more than a full circle.
   */
  method Look(player: GameObj, shell: Shell)
    modifies player`direction
    ensures player.direction == Turned(old(player.direction), shell)
    ensures -0.5 * PI <= player.direction.altitude <= 0.5 * PI
    ensures old(player.direction.azimuth) - (shell.mouseX - shell.prevMouseX) * MOUSE_SENSITIVITY >= -2.0 * PI ==>
      0.0 <= player.direction.azimuth < 2.0 * PI
  {
    player.direction := Turned(player.direction, shell);
  }

  // Block edits

  /** The five neighbours `breakBlock` inspects: +x, +y, -x, -y and +z, but not -z. */
  function Neighbors(loc: Coord): (ns: seq<Coord>)
    ensures |ns| == 5
    ensures Coord(loc.x, loc.y, loc.z - 1) !in ns && loc !in ns
    ensures forall n :: n in ns ==> (n.x - loc.x) * (n.x - loc.x) + (n.y - loc.y) * (n.y - loc.y) + (n.z - loc.z) * (n.z - loc.z) == 1
  {
    [Coord(loc.x + 1, loc.y, loc.z), Coord(loc.x, loc.y + 1, loc.z), Coord(loc.x - 1, loc.y, loc.z),
     Coord(loc.x, loc.y - 1, loc.z), Coord(loc.x, loc.y, loc.z + 1)]
  }

  /** Some inspected neighbour of the cell holds water. */
  ghost predicate NearWater(world: World, loc: Coord)
    reads world, world.chunkTable.Values
  {
    exists k :: 0 <= k < 5 && world.GetVox(Neighbors(loc)[k]) == WATER
  }

  /** The voxels of the five inspected neighbours, in the order `breakBlock` lists them. */
  function NeighborVoxels(world: World, loc: Coord): (vs: seq<int>)
    reads world, world.chunkTable.Values
    ensures |vs| == 5 && forall k :: 0 <= k < 5 ==> vs[k] == world.GetVox(Neighbors(loc)[k])
    ensures WATER in vs <==> NearWater(world, loc)
  {
    var ns := Neighbors(loc);
    var vs := seq(5, k requires 0 <= k < 5 reads world, world.chunkTable.Values => world.GetVox(ns[k]));
    assert NearWater(world, loc) ==> WATER in vs by {
      if NearWater(world, loc) {
        var k :| 0 <= k < 5 && world.GetVox(Neighbors(loc)[k]) == WATER;
        assert vs[k] == WATER;
      }
    }
    vs
  }

  /**
   * `setBlock(state, x, y, z, v)`: writes the voxel and returns the `set` command
   * that replays the same write on the server.
   */
  method SetBlock(world: World, p: Coord, v: int) returns (cmd: Command)
    requires world.Valid()
    modifies world, world.chunkTable.Values
    ensures world.Valid()
    ensures cmd.SetVoxCmd? && cmd.At() == p && cmd.v == v
    ensures world.GetVox(p) == v
    ensures forall q :: OriginOf(q) != OriginOf(p) ==> world.GetVox(q) == old(world.GetVox(q))
  {
    world.SetVox(p, v);
    cmd := SetVoxCmd(p.x, p.y, p.z, v);
  }

  /**
   * `breakBlock` on the targeted cell: the cell becomes WATER when one of its five
   * non-downward neighbours held water, AIR otherwise, and the `set` command
   * for it is returned.  Without a target nothing happens.
   */
  method BreakBlock(world: World, target: Option<LookAt>) returns (r: Option<Command>)
    requires world.Valid()
    modifies world, world.chunkTable.Values
    ensures world.Valid()
    ensures target.None? ==> r == None && unchanged(world) && unchanged(world.chunkTable.Values)
    ensures target.Some? ==> var loc := target.value.location;
      && r.Some? && r.value.SetVoxCmd? && r.value.At() == loc
      && (r.value.v == WATER <==> old(NearWater(world, loc)))
      && (r.value.v == WATER || r.value.v == AIR)
      && world.GetVox(loc) == r.value.v
      && forall q :: OriginOf(q) != OriginOf(loc) ==> world.GetVox(q) == old(world.GetVox(q))
  {
    if target.None? {
      return None;
    }
    var loc := target.value.location;
    var neighbors := NeighborVoxels(world, loc);
    var v := if WATER in neighbors then WATER else AIR;
    var cmd := SetBlock(world, loc, v);
    r := Some(cmd);
  }

  // Key and mouse commands

  /** What the number keys and F ask for. */
  datatype KeyAction = SetMode(mode: PlayerMode) | DebugSpawn | FireBazooka | NoAction

  /**
   * The key branch of `interact`: keys are checked in the order '1', '2', '3', 'F'
   * and only the first one held acts.
   */
  function KeyActionOf(shell: Shell): (a: KeyAction)
    ensures a == SetMode(Bazooka) <==> shell.WasDown("1")
    ensures a == SetMode(Commando) <==> !shell.WasDown("1") && shell.WasDown("2")
    ensures a == DebugSpawn <==> !shell.WasDown("1") && !shell.WasDown("2") && shell.WasDown("3")
    ensures a == FireBazooka <==> !shell.WasDown("1") && !shell.WasDown("2") && !shell.WasDown("3") && shell.WasDown("F")
  {
    if shell.WasDown("1") then SetMode(Bazooka)
    else if shell.WasDown("2") then SetMode(Commando)
    else if shell.WasDown("3") then DebugSpawn
    else if shell.WasDown("F") then FireBazooka
    else NoAction
  }

  /** The other camera mode. */
  function Toggled(m: CameraMode): (r: CameraMode)
    ensures r != m
  {
    if m == FirstPerson then ThirdPerson else FirstPerson
  }

  /**
   * The keyboard half of `interact(state)`: the first held key of '1', '2', '3',
   * 'F' acts ('1' and '2' pick the player's mode, 'F' queues one `fire-bazooka`
   * command, '3' does nothing); pressing '9' toggles the camera and '0' the HUD.
   */
  method InteractKeys(state: GameState, shell: Shell)
    modifies state.player`mode, state`pendingCommands, state`cameraMode, state`showHUD
    ensures var a := KeyActionOf(shell);
      state.player.mode == (if a.SetMode? then a.mode else old(state.player.mode))
    ensures state.pendingCommands ==
      old(state.pendingCommands) + (if KeyActionOf(shell) == FireBazooka then [FireBazookaCmd] else [])
    ensures state.cameraMode == if shell.Press("9") then Toggled(old(state.cameraMode)) else old(state.cameraMode)
    ensures state.showHUD == if shell.Press("0") then !old(state.showHUD) else old(state.showHUD)
  {
    var a := KeyActionOf(shell);
    match a {
      case SetMode(m) => state.player.mode := m;
      case DebugSpawn =>
      case FireBazooka => state.pendingCommands := state.pendingCommands + [FireBazookaCmd];
      case NoAction =>
    }
    if shell.Press("9") {
      state.cameraMode := Toggled(state.cameraMode);
    }
    if shell.Press("0") {
      state.showHUD := !state.showHUD;
    }
  }

  /**
   * `interact(state)`: the keys act as `InteractKeys` says; then a held left
   * button breaks the targeted block and returns its command, and otherwise
   * nothing is returned and the world is untouched.
   */
  method Interact(state: GameState, shell: Shell) returns (r: Option<Command>)
    requires state.world.Valid()
    modifies state.player`mode, state`pendingCommands, state`cameraMode, state`showHUD
    modifies state.world, state.world.chunkTable.Values
    ensures state.world.Valid()
    ensures var a := KeyActionOf(shell);
      state.player.mode == (if a.SetMode? then a.mode else old(state.player.mode))
    ensures state.pendingCommands ==
      old(state.pendingCommands) + (if KeyActionOf(shell) == FireBazooka then [FireBazookaCmd] else [])
    ensures state.cameraMode == if shell.Press("9") then Toggled(old(state.cameraMode)) else old(state.cameraMode)
    ensures state.showHUD == if shell.Press("0") then !old(state.showHUD) else old(state.showHUD)
    ensures !shell.WasDown("mouse-left") ==> r == None && unchanged(state.world) && unchanged(state.world.chunkTable.Values)
    ensures shell.WasDown("mouse-left") ==> (r.Some? <==> state.lookAtBlock.Some?)
    ensures r.None? ==> unchanged(state.world) && unchanged(state.world.chunkTable.Values)
    ensures shell.WasDown("mouse-left") && state.lookAtBlock.Some? ==>
      var loc := state.lookAtBlock.value.location;
      && r.value.SetVoxCmd? && r.value.At() == loc
      && (r.value.v == WATER <==> old(NearWater(state.world, loc)))
      && (r.value.v == WATER || r.value.v == AIR)
      && state.world.GetVox(loc) == r.value.v
      && forall q :: OriginOf(q) != OriginOf(loc) ==> state.world.GetVox(q) == old(state.world.GetVox(q))
  {
    InteractKeys(state, shell);
    assert unchanged(state.world) && unchanged(state.world.chunkTable.Values);
    if shell.WasDown("mouse-left") {
      r := BreakBlock(state.world, state.lookAtBlock);
    } else {
      r := None;
    }
  }
}
