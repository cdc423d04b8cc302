/**
 * The older client's controls (src/client/player-controls.js): the same view
 * turning and block breaking as the current controls, plus placing a block on
 * the face the player looks at, guarded against placing it inside the player.
 */
module LegacyControls {
  import opened Wrappers
  import opened Objects
  import opened Chunks
  import opened Worlds
  import opened ClientState
  import opened LegacyClientState
  import PlayerControls
  import Physics

  /** `look(player)`: as in the current controls; the altitude ends within [-π/2, π/2]. */
  method Look(player: LegacyPlayer, shell: Shell)
    modifies player`direction
    ensures player.direction == PlayerControls.Turned(old(player.direction), shell)
    ensures -0.5 * PlayerControls.PI <= player.direction.altitude <= 0.5 * PlayerControls.PI
  {
    player.direction := PlayerControls.Turned(player.direction, shell);
  }

  /** The cell a placed block fills: the looked-at cell plus the normal of the face hit. */
  function PlacementCell(target: LookAt): Coord {
    Coord(target.location.x + target.side.x, target.location.y + target.side.y, target.location.z + target.side.z)
  }

  /**
   * The guard of `placeBlock`: the cell has the player's floored x and y, and its
   * z is the floored z or one below it.
   */
  predicate IntersectsPlayer(b: Coord, p: Vec) {
    b.x == Physics.Floor(p.x) && b.y == Physics.Floor(p.y) && (b.z - Physics.Floor(p.z) == 0 || b.z - Physics.Floor(p.z) == -1)
  }

  /**
   * The guard refuses exactly the cell holding the player's head point and the
   * cell just below it.
   */
  lemma IntersectsPlayerCells(b: Coord, p: Vec)
    ensures var head := Physics.Cell(p.x, p.y, p.z);
      IntersectsPlayer(b, p) <==> b == head || b == Coord(head.x, head.y, head.z - 1)
  {
  }

  /**
   * The voxel `setVox(x, y, z, placing)` stores: the value itself, or 0 when
   * `placing` is absent, as a byte array of voxels stores `undefined`.
   */
  function PlacedVoxel(placing: Option<int>): int {
    if placing.Some? then placing.value else 0
  }

  /**
   * `placeBlock(state)`: without a target nothing happens; the cell next to the
   * face hit is refused when it overlaps the player; otherwise it gets the
   * player's `placing` value (0 while that is absent) and the `set` command is
   * returned.
   */
  method PlaceBlock(state: LegacyState) returns (r: Option<Command>)
    requires state.world.Valid()
    modifies state.world, state.world.chunkTable.Values
    ensures state.world.Valid()
    ensures r.None? <==> (state.player.lookAtBlock.None?
      || IntersectsPlayer(PlacementCell(state.player.lookAtBlock.value), state.player.location))
    ensures r.None? ==> unchanged(state.world) && unchanged(state.world.chunkTable.Values)
    ensures r.Some? ==> var b := PlacementCell(state.player.lookAtBlock.value);
      && r.value.SetVoxCmd? && r.value.At() == b && r.value.v == PlacedVoxel(state.player.placing)
      && state.world.GetVox(b) == PlacedVoxel(state.player.placing)
      && (state.player.placing.None? ==> state.world.GetVox(b) == 0)
      && forall q :: OriginOf(q) != OriginOf(b) ==> state.world.GetVox(q) == old(state.world.GetVox(q))
  {
    var block := state.player.lookAtBlock;
    if block.None? {
      return None;
    }
    var b := PlacementCell(block.value);
    if IntersectsPlayer(b, state.player.location) {
      return None;
    }
    var cmd := PlayerControls.SetBlock(state.world, b, PlacedVoxel(state.player.placing));
    r := Some(cmd);
  }

  /** A right click, or a left click with shift held, breaks. */
  predicate Breaks(shell: Shell) {
    shell.WasDown("mouse-right") || (shell.WasDown("shift") && shell.WasDown("mouse-left"))
  }

  /** A plain left click places. */
  predicate Places(shell: Shell) {
    !Breaks(shell) && shell.WasDown("mouse-left")
  }

  /** The toggles of `interact`: '9' switches the player's camera, '0' the HUD. */
  method Toggles(state: LegacyState, shell: Shell)
    modifies state.player`camera, state`showHUD
    ensures state.player.camera == if shell.Press("9") then PlayerControls.Toggled(old(state.player.camera)) else old(state.player.camera)
    ensures state.showHUD == if shell.Press("0") then !old(state.showHUD) else old(state.showHUD)
  {
    if shell.Press("9") {
      state.player.camera := PlayerControls.Toggled(state.player.camera);
    }
    if shell.Press("0") {
      state.showHUD := !state.showHUD;
    }
  }

  /**
   * `interact(state)`: '9' toggles the player's camera and '0' the HUD; then a
   * right click or shift+left breaks the looked-at block (WATER beside water,
   * AIR otherwise), a plain left click places one, and without a click nothing
   * is returned and the world is untouched.
   */
  method Interact(state: LegacyState, shell: Shell) returns (r: Option<Command>)
    requires state.world.Valid()
    modifies state.player`camera, state`showHUD, state.world, state.world.chunkTable.Values
    ensures state.world.Valid()
    ensures state.player.camera == if shell.Press("9") then PlayerControls.Toggled(old(state.player.camera)) else old(state.player.camera)
    ensures state.showHUD == if shell.Press("0") then !old(state.showHUD) else old(state.showHUD)
    ensures !Breaks(shell) && !Places(shell) ==> r == None && unchanged(state.world) && unchanged(state.world.chunkTable.Values)
    ensures Breaks(shell) ==> (r.Some? <==> state.player.lookAtBlock.Some?)
    ensures r.None? ==> unchanged(state.world) && unchanged(state.world.chunkTable.Values)
    ensures Breaks(shell) && r.Some? ==> var loc := state.player.lookAtBlock.value.location;
      && r.value.SetVoxCmd? && r.value.At() == loc
      && (r.value.v == PlayerControls.WATER <==> old(PlayerControls.NearWater(state.world, loc)))
      && (r.value.v == PlayerControls.WATER || r.value.v == PlayerControls.AIR)
      && state.world.GetVox(loc) == r.value.v
      && forall q :: OriginOf(q) != OriginOf(loc) ==> state.world.GetVox(q) == old(state.world.GetVox(q))
    ensures Places(shell) ==> (r.None? <==> (state.player.lookAtBlock.None?
      || IntersectsPlayer(PlacementCell(state.player.lookAtBlock.value), state.player.location)))
    ensures Places(shell) && r.None? ==> unchanged(state.world) && unchanged(state.world.chunkTable.Values)
    ensures Places(shell) && r.Some? ==> var b := PlacementCell(state.player.lookAtBlock.value);
      && r.value == SetVoxCmd(b.x, b.y, b.z, PlacedVoxel(state.player.placing))
      && state.world.GetVox(b) == PlacedVoxel(state.player.placing)
      && forall q :: OriginOf(q) != OriginOf(b) ==> state.world.GetVox(q) == old(state.world.GetVox(q))
  {
    Toggles(state, shell);
    assert unchanged(state.world) && unchanged(state.world.chunkTable.Values);
    if Breaks(shell) {
      r := PlayerControls.BreakBlock(state.world, state.player.lookAtBlock);
    } else if shell.WasDown("mouse-left") {
      r := PlaceBlock(state);
    } else {
      r := None;
    }
  }
}
