/**
 * Voxel (block) types (src/protocol/vox.ts): the type table, the name index built
 * from it, and the solidity, opacity and translucency predicates on voxel values.
 * A voxel value is an index into the table; -1 stands for "off-world".
 */
module Vox {
  import opened Wrappers

  /** A texture tile `[column, row]` in the texture atlas. */
  datatype Uv = Uv(col: int, row: int)

  /** Texture tiles for the sides, the top and the bottom of a block. */
  datatype UvType = UvType(side: Uv, top: Uv, bottom: Uv)

  /** The `uv` property of an object-form description: missing, one tile for every face, or one per face. */
  datatype UvProp = UvUndefined | UvPair(pair: Uv) | UvFaces(faces: UvType)

  /** A type description: a bare tile pair, or an object with optional `uv`, `opaque` and `sideOffset`. */
  datatype VoxTypeProps =
    | PairProps(pair: Uv)
    | ObjectProps(uv: UvProp, opaqueProp: Option<bool>, sideOffset: Option<real>)

  datatype VoxType = VoxType(name: string, uv: Option<UvType>, sideOffset: real, isOpaque: bool)

  /** The `VoxType` constructor. */
  function NewVoxType(name: string, props: VoxTypeProps): (t: VoxType)
    ensures t.name == name
  {
    match props
    case PairProps(p) => VoxType(name, Some(UvType(p, p, p)), 0.0, false)
    case ObjectProps(uv, opaqueProp, sideOffset) =>
      var faces := match uv
        case UvUndefined => None
        case UvPair(p) => Some(UvType(p, p, p))
        case UvFaces(f) => Some(f);
      VoxType(name, faces,
        if sideOffset.None? then 0.0 else sideOffset.value,
        if opaqueProp.None? then true else opaqueProp.value)
  }

  /** A type built from a bare pair uses that tile on every face, has no side offset and is not opaque. */
  lemma PairTypeDefaults(name: string, p: Uv)
    ensures NewVoxType(name, PairProps(p)).uv == Some(UvType(p, p, p))
    ensures NewVoxType(name, PairProps(p)).sideOffset == 0.0
    ensures !NewVoxType(name, PairProps(p)).isOpaque
  {
  }

  /**
   * A type built from an object is opaque unless it says otherwise, has side offset 0
   * unless given, and a single tile pair is used on every face.
   */
  lemma ObjectTypeDefaults(name: string, uv: UvProp, opaqueProp: Option<bool>, sideOffset: Option<real>)
    ensures var t := NewVoxType(name, ObjectProps(uv, opaqueProp, sideOffset));
      && (t.isOpaque <==> opaqueProp != Some(false))
      && (sideOffset.None? ==> t.sideOffset == 0.0)
      && (sideOffset.Some? ==> t.sideOffset == sideOffset.value)
      && (uv.UvPair? ==> t.uv == Some(UvType(uv.pair, uv.pair, uv.pair)))
      && (uv.UvFaces? ==> t.uv == Some(uv.faces))
      && (uv.UvUndefined? ==> t.uv == None)
  {
  }

  /** The type table; a voxel value is an index into it. */
  const TYPES: seq<VoxType> := [
    NewVoxType("AIR", ObjectProps(UvUndefined, Some(false), None)),
    NewVoxType("WATER", ObjectProps(UvPair(Uv(0, 0)), Some(false), None)),
    NewVoxType("GRASS", ObjectProps(UvFaces(UvType(Uv(0, 0), Uv(0, 0), Uv(0, 0))), None, None)),
    NewVoxType("STONE", PairProps(Uv(4, 0))),
    NewVoxType("RED", PairProps(Uv(10, 0))),
    NewVoxType("PINK", PairProps(Uv(9, 0))),
    NewVoxType("DARK_GREEN", PairProps(Uv(12, 0))),
    NewVoxType("LIGHT_GREEN", PairProps(Uv(11, 0))),
    NewVoxType("BROWN", PairProps(Uv(1, 0))),
    NewVoxType("YELLOW", PairProps(Uv(15, 0))),
    NewVoxType("DARK_BLUE", PairProps(Uv(14, 0))),
    NewVoxType("LIGHT_BLUE", PairProps(Uv(13, 0))),
    NewVoxType("DARK_PURPLE", PairProps(Uv(8, 0))),
    NewVoxType("LIGHT_PURPLE", PairProps(Uv(7, 0))),
    NewVoxType("CACTUS", ObjectProps(UvPair(Uv(0, 0)), None, Some(1.0 / 16.0))),
    NewVoxType("LEAVES", PairProps(Uv(0, 0))),
    NewVoxType("POPLAR", PairProps(Uv(0, 0))),
    NewVoxType("STRIPE_WOOD", ObjectProps(UvFaces(UvType(Uv(5, 0), Uv(6, 0), Uv(6, 0))), None, None)),
    NewVoxType("PLANT_1", ObjectProps(UvPair(Uv(1, 1)), Some(false), None)),
    NewVoxType("PLANT_2", ObjectProps(UvPair(Uv(2, 1)), Some(false), None)),
    NewVoxType("PLANT_3", ObjectProps(UvPair(Uv(3, 1)), Some(false), None))
  ]

  /** Voxel value of a position outside every loaded chunk. */
  const OFF_WORLD: int := -1

  /** Whether no two table entries share a name. */
  predicate NamesDistinct(types: seq<VoxType>) {
    forall i, j :: 0 <= i < j < |types| ==> types[i].name != types[j].name
  }

  /** The name index the `forEach` over the table produces: each name maps to the last index carrying it. */
  function IndexOf(types: seq<VoxType>): map<string, nat>
    decreases |types|
  {
    if types == [] then map[]
    else IndexOf(types[..|types| - 1])[types[|types| - 1].name := |types| - 1]
  }

  /** INDEX: the name of every type to its position in the table. */
  const INDEX: map<string, nat> := IndexOf(TYPES)

  /** The `forEach` loop that fills INDEX. */
  method BuildIndex(types: seq<VoxType>) returns (index: map<string, nat>)
    ensures index == IndexOf(types)
  {
    index := map[];
    var i := 0;
    while i < |types|
      invariant 0 <= i <= |types|
      invariant index == IndexOf(types[..i])
    {
      assert types[..i + 1][..i] == types[..i];
      index := index[types[i].name := i];
      i := i + 1;
    }
    assert types[..|types|] == types;
  }

  /**
   * The index holds every name of the table, maps it to a position carrying that
   * name, and no later position carries it.
   */
  lemma {:induction false} IndexOfSound(types: seq<VoxType>)
    ensures forall i :: 0 <= i < |types| ==> types[i].name in IndexOf(types)
    ensures forall n :: n in IndexOf(types) ==>
      IndexOf(types)[n] < |types| && types[IndexOf(types)[n]].name == n
      && forall j :: IndexOf(types)[n] < j < |types| ==> types[j].name != n
    decreases |types|
  {
    if types != [] {
      var init := types[..|types| - 1];
      IndexOfSound(init);
      forall i | 0 <= i < |types| - 1
        ensures types[i].name == init[i].name
      {
      }
    }
  }

  /** With distinct names the index inverts the table. */
  lemma IndexOfDistinct(types: seq<VoxType>)
    requires NamesDistinct(types)
    ensures forall i :: 0 <= i < |types| ==> types[i].name in IndexOf(types) && IndexOf(types)[types[i].name] == i
  {
    IndexOfSound(types);
    forall i | 0 <= i < |types|
      ensures IndexOf(types)[types[i].name] == i
    {
    }
  }

  /** INDEX[TYPES[i].name] == i for every type; AIR is 0 and WATER is 1. */
  lemma IndexInvertsTypes()
    ensures forall i :: 0 <= i < |TYPES| ==> TYPES[i].name in INDEX && INDEX[TYPES[i].name] == i
    ensures "AIR" in INDEX && INDEX["AIR"] == 0
    ensures "WATER" in INDEX && INDEX["WATER"] == 1
  {
    TypeNamesDistinct();
    IndexOfDistinct(TYPES);
    assert TYPES[0].name == "AIR" && TYPES[1].name == "WATER";
  }

  /** No two entries of the table share a name. */
  lemma TypeNamesDistinct()
    ensures NamesDistinct(TYPES)
  {
    NamesDistinctFrom(0);
    NamesDistinctFrom(7);
    NamesDistinctFrom(14);
  }

  /** Names of the entries lo..lo+6 differ from the names of all later entries. */
  lemma NamesDistinctFrom(lo: nat)
    requires lo == 0 || lo == 7 || lo == 14
    ensures forall i, j :: lo <= i < lo + 7 && i < j < |TYPES| ==> TYPES[i].name != TYPES[j].name
  {
  }

  /** isSolid: on-world and neither air nor water. */
  function IsSolid(v: int): (r: bool)
    ensures v >= OFF_WORLD ==> (r <==> v != OFF_WORLD && v != 0 && v != 1)
  {
    v > 1
  }

  /** isOpaque: on-world and of an opaque type (the source reads past the table for larger values). */
  function IsOpaque(v: int): (r: bool)
    requires v < |TYPES|
    ensures r ==> 0 <= v && TYPES[v].isOpaque
  {
    v >= 0 && TYPES[v].isOpaque
  }

  /** isTranslucent: only water needs alpha blending. */
  function IsTranslucent(v: int): (r: bool)
    ensures r <==> v == 1
  {
    v == 1
  }

  /**
   * Exactly GRASS (2), CACTUS (14) and STRIPE_WOOD (17) are opaque: every type made from
   * a bare pair, STONE included, is not, and neither is off-world.
   */
  lemma OpaqueTypes(v: int)
    requires OFF_WORLD <= v < |TYPES|
    ensures IsOpaque(v) <==> v == 2 || v == 14 || v == 17
  {
  }

  /** The solid values are exactly the table entries other than AIR and WATER, and the values past the table. */
  lemma SolidMeansNotAirOrWater(v: int)
    requires 0 <= v < |TYPES|
    ensures IsSolid(v) <==> TYPES[v].name != "AIR" && TYPES[v].name != "WATER"
    ensures IsTranslucent(v) <==> TYPES[v].name == "WATER"
  {
    IndexInvertsTypes();
    assert TYPES[0].name == "AIR" && TYPES[1].name == "WATER";
  }
}
