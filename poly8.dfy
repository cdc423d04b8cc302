/**
 * Eight-point polyhedra (src/math/geometry/poly8.ts): eight corners, optional
 * per-face texture coordinates and the axis-aligned bounding box of the
 * corners; a bounding-box test against a query box; the 36-vertex mesh of the
 * six faces; and the cuboid between two points.
 */
module Poly8Geometry {
  import opened Wrappers
  import opened Objects
  import opened Meshes

  // Bounds with infinities

  /** A bound of a box: a number, or one of the infinities the empty box starts from. */
  datatype Bound = NegInf | Fin(r: real) | PosInf

  predicate Le(a: Bound, b: Bound) {
    a.NegInf? || b.PosInf? || (a.Fin? && b.Fin? && a.r <= b.r)
  }

  /** `Math.min`. */
  function Min(a: Bound, b: Bound): (m: Bound)
    ensures Le(m, a) && Le(m, b) && (m == a || m == b)
  {
    if Le(a, b) then a else b
  }

  /** `Math.max`. */
  function Max(a: Bound, b: Bound): (m: Bound)
    ensures Le(a, m) && Le(b, m) && (m == a || m == b)
  {
    if Le(a, b) then b else a
  }

  /** `AABB` (src/types.ts): the least and greatest coordinate on each axis. */
  datatype AABB = AABB(x0: Bound, y0: Bound, z0: Bound, x1: Bound, y1: Bound, z1: Bound)

  /** The box `computeAABB` starts from: every least bound at +∞, every greatest at −∞. */
  const EMPTY: AABB := AABB(PosInf, PosInf, PosInf, NegInf, NegInf, NegInf)

  /** Coordinate `a` (0, 1, 2 for x, y, z) of a point. */
  function Coord(v: Vec, a: nat): real
    requires a < 3
  {
    if a == 0 then v.x else if a == 1 then v.y else v.z
  }

  /** The least bound on axis `a`. */
  function Lo(b: AABB, a: nat): Bound
    requires a < 3
  {
    if a == 0 then b.x0 else if a == 1 then b.y0 else b.z0
  }

  /** The greatest bound on axis `a`. */
  function Hi(b: AABB, a: nat): Bound
    requires a < 3
  {
    if a == 0 then b.x1 else if a == 1 then b.y1 else b.z1
  }

  /** One step of the `forEach`: every bound moves out to take in `v`. */
  function Extend(b: AABB, v: Vec): (r: AABB)
    ensures forall a :: 0 <= a < 3 ==>
      Lo(r, a) == Min(Lo(b, a), Fin(Coord(v, a))) && Hi(r, a) == Max(Hi(b, a), Fin(Coord(v, a)))
  {
    AABB(Min(b.x0, Fin(v.x)), Min(b.y0, Fin(v.y)), Min(b.z0, Fin(v.z)),
         Max(b.x1, Fin(v.x)), Max(b.y1, Fin(v.y)), Max(b.z1, Fin(v.z)))
  }

  /** The box `computeAABB` builds from `verts`, taking them in order. */
  function BoxOf(verts: seq<Vec>): AABB {
    if verts == [] then EMPTY else Extend(BoxOf(verts[..|verts| - 1]), verts[|verts| - 1])
  }

  /** The bounds on every axis contain every vertex. */
  lemma {:induction false} BoxContains(verts: seq<Vec>, k: nat, a: nat)
    requires k < |verts| && a < 3
    ensures Le(Lo(BoxOf(verts), a), Fin(Coord(verts[k], a))) && Le(Fin(Coord(verts[k], a)), Hi(BoxOf(verts), a))
  {
    var init := verts[..|verts| - 1];
    if k < |verts| - 1 {
      BoxContains(init, k, a);
      assert init[k] == verts[k];
    }
  }

  /** Of a non-empty list, each bound is a coordinate of some vertex. */
  lemma {:induction false} BoxAttained(verts: seq<Vec>, a: nat) returns (lo: nat, hi: nat)
    requires |verts| > 0 && a < 3
    ensures lo < |verts| && Lo(BoxOf(verts), a) == Fin(Coord(verts[lo], a))
    ensures hi < |verts| && Hi(BoxOf(verts), a) == Fin(Coord(verts[hi], a))
  {
    var n := |verts| - 1;
    var init := verts[..n];
    if n == 0 {
      lo, hi := 0, 0;
    } else {
      lo, hi := BoxAttained(init, a);
      if Lo(BoxOf(verts), a) != Lo(BoxOf(init), a) {
        lo := n;
      }
      if Hi(BoxOf(verts), a) != Hi(BoxOf(init), a) {
        hi := n;
      }
    }
  }

  /**
   * `computeAABB(verts)`: the empty list gives the infinite empty box; otherwise
   * every bound contains every vertex and is the coordinate of one of them.
   */
  method ComputeAABB(verts: seq<Vec>) returns (box: AABB)
    ensures box == BoxOf(verts)
    ensures verts == [] ==> box == EMPTY
    ensures forall k, a :: 0 <= k < |verts| && 0 <= a < 3 ==>
      Le(Lo(box, a), Fin(Coord(verts[k], a))) && Le(Fin(Coord(verts[k], a)), Hi(box, a))
    ensures verts != [] ==> forall a :: 0 <= a < 3 ==>
      (exists k :: 0 <= k < |verts| && Lo(box, a) == Fin(Coord(verts[k], a)))
      && (exists k :: 0 <= k < |verts| && Hi(box, a) == Fin(Coord(verts[k], a)))
  {
    box := EMPTY;
    var i := 0;
    while i < |verts|
      invariant 0 <= i <= |verts|
      invariant box == BoxOf(verts[..i])
    {
      assert verts[..i + 1][..i] == verts[..i];
      box := Extend(box, verts[i]);
      i := i + 1;
    }
    assert verts[..|verts|] == verts;
    forall k, a | 0 <= k < |verts| && 0 <= a < 3
      ensures Le(Lo(box, a), Fin(Coord(verts[k], a))) && Le(Fin(Coord(verts[k], a)), Hi(box, a))
    {
      BoxContains(verts, k, a);
    }
    if verts != [] {
      forall a | 0 <= a < 3
        ensures (exists k :: 0 <= k < |verts| && Lo(box, a) == Fin(Coord(verts[k], a)))
          && (exists k :: 0 <= k < |verts| && Hi(box, a) == Fin(Coord(verts[k], a)))
      {
        var lo, hi := BoxAttained(verts, a);
      }
    }
  }

  // The polyhedron

  /**
   * A `Poly8`: its eight corners, indexed `ix * 4 + iy * 2 + iz`, the texture
   * coordinates of each face when given, and the bounding box of the corners.
   */
  datatype Poly8 = Poly8(verts: seq<Vec>, uvs: Option<seq<seq<Uv>>>, aabb: AABB)

  /** `new Poly8(verts, uvs)`: the bounding box is computed from the corners. */
  method NewPoly8(verts: seq<Vec>, uvs: Option<seq<seq<Uv>>>) returns (p: Poly8)
    ensures p.verts == verts && p.uvs == uvs
    ensures forall k, a :: 0 <= k < |verts| && 0 <= a < 3 ==>
      Le(Lo(p.aabb, a), Fin(Coord(verts[k], a))) && Le(Fin(Coord(verts[k], a)), Hi(p.aabb, a))
    ensures verts != [] ==> forall a :: 0 <= a < 3 ==>
      (exists k :: 0 <= k < |verts| && Lo(p.aabb, a) == Fin(Coord(verts[k], a)))
      && (exists k :: 0 <= k < |verts| && Hi(p.aabb, a) == Fin(Coord(verts[k], a)))
  {
    var box := ComputeAABB(verts);
    p := Poly8(verts, uvs, box);
  }

  /**
   * `intersect(x0, x1, y0, y1, z0, z1)`: on each axis the larger of the two
   * least bounds is at most the smaller of the two greatest bounds.
   */
  function Intersect(b: AABB, x0: real, x1: real, y0: real, y1: real, z0: real, z1: real): bool {
    Le(Max(Fin(x0), b.x0), Min(Fin(x1), b.x1))
    && Le(Max(Fin(y0), b.y0), Min(Fin(y1), b.y1))
    && Le(Max(Fin(z0), b.z0), Min(Fin(z1), b.z1))
  }

  /** `t` lies in the closed interval `[lo, hi]` and between the bounds `blo` and `bhi`. */
  predicate InBoth(t: real, lo: real, hi: real, blo: Bound, bhi: Bound) {
    lo <= t <= hi && Le(blo, Fin(t)) && Le(Fin(t), bhi)
  }

  /** The closed intervals `[lo, hi]` and `[blo, bhi]` share a point. */
  ghost predicate Overlap(lo: real, hi: real, blo: Bound, bhi: Bound) {
    exists t :: InBoth(t, lo, hi, blo, bhi)
  }

  /** The test on one axis is true exactly when the intervals share a point. */
  lemma AxisOverlap(lo: real, hi: real, blo: Bound, bhi: Bound)
    ensures Le(Max(Fin(lo), blo), Min(Fin(hi), bhi)) <==> Overlap(lo, hi, blo, bhi)
  {
    var m := Max(Fin(lo), blo);
    if Le(m, Min(Fin(hi), bhi)) {
      assert m.Fin?;
      assert InBoth(m.r, lo, hi, blo, bhi);
    }
    if Overlap(lo, hi, blo, bhi) {
      var t :| InBoth(t, lo, hi, blo, bhi);
      assert Le(m, Fin(t));
    }
  }

  /** `intersect` is true exactly when the query box and the bounding box overlap on all three axes. */
  lemma IntersectOverlaps(b: AABB, x0: real, x1: real, y0: real, y1: real, z0: real, z1: real)
    ensures Intersect(b, x0, x1, y0, y1, z0, z1) <==>
      Overlap(x0, x1, b.x0, b.x1) && Overlap(y0, y1, b.y0, b.y1) && Overlap(z0, z1, b.z0, b.z1)
  {
    AxisOverlap(x0, x1, b.x0, b.x1);
    AxisOverlap(y0, y1, b.y0, b.y1);
    AxisOverlap(z0, z1, b.z0, b.z1);
  }

  /** Nothing intersects the box of no vertices. */
  lemma EmptyIntersectsNothing(x0: real, x1: real, y0: real, y1: real, z0: real, z1: real)
    ensures !Intersect(EMPTY, x0, x1, y0, y1, z0, z1)
  {
  }

  // The six faces

  /** The two triangles of a face, as corner selectors `[u, v]` on the face's two free axes. */
  const FACE: seq<seq<nat>> := [[0, 0], [0, 1], [1, 0], [1, 0], [0, 1], [1, 1]]

  /** `vi[b]` for `vi = FACE[j]`. */
  function Vi(j: nat, b: nat): (r: nat)
    requires j < 6 && b < 2
    ensures r < 2
  {
    if j == 0 then 0
    else if j == 1 then [0, 1][b]
    else if j == 2 || j == 3 then [1, 0][b]
    else if j == 4 then [0, 1][b]
    else 1
  }

  /** `Vi` is `FACE` read at `[j][b]`. */
  lemma ViIsFace(j: nat, b: nat)
    requires j < 6 && b < 2
    ensures Vi(j, b) == FACE[j][b]
  {
  }

  /**
   * The corner index of vertex `j` of face `i`: on the face's own axis `i >> 1`
   * the bit is `i % 2`, and the other two bits come from `FACE[j]` (the
   * y-coordinate taking `vi[i >> 2]`).
   */
  function Corner(i: nat, j: nat): (c: nat)
    requires i < 6 && j < 6
    ensures c < 8
  {
    var ix := if i / 2 == 0 then i % 2 else Vi(j, 0);
    var iy := if i / 2 == 1 then i % 2 else Vi(j, i / 4);
    var iz := if i / 2 == 2 then i % 2 else Vi(j, 1);
    ix * 4 + iy * 2 + iz
  }

  /** Bit `a` (0, 1, 2 for x, y, z) of a corner index. */
  function Bit(c: nat, a: nat): nat
    requires a < 3
  {
    if a == 0 then c / 4 % 2 else if a == 1 then c / 2 % 2 else c % 2
  }

  /** The sign of face `i`'s normal: `(i % 2) * 2 - 1`. */
  function Sign(i: nat): real {
    ((i % 2) * 2 - 1) as real
  }

  /** `[nx, ny, nz]` of face `i`: the sign on the face's axis, 0 elsewhere. */
  function Normal(i: nat): (n: Vec)
    requires i < 6
  {
    Vec(if i / 2 == 0 then Sign(i) else 0.0, if i / 2 == 1 then Sign(i) else 0.0, if i / 2 == 2 then Sign(i) else 0.0)
  }

  /** The corners of face `i`, as the six vertices of its two triangles. */
  function FaceCorners(i: nat): (s: set<nat>)
    requires i < 6
  {
    {Corner(i, 0), Corner(i, 1), Corner(i, 2), Corner(i, 3), Corner(i, 4), Corner(i, 5)}
  }

  /** The six corner indices face `i` visits, in the order the inner loop visits them. */
  lemma FaceTable(i: nat) returns (cs: seq<nat>)
    requires i < 6
    ensures cs == [Corner(i, 0), Corner(i, 1), Corner(i, 2), Corner(i, 3), Corner(i, 4), Corner(i, 5)]
    ensures cs == if i == 0 then [0, 1, 2, 2, 1, 3] else if i == 1 then [4, 5, 6, 6, 5, 7]
      else if i == 2 then [0, 1, 4, 4, 1, 5] else if i == 3 then [2, 3, 6, 6, 3, 7]
      else if i == 4 then [0, 2, 4, 4, 2, 6] else [1, 3, 5, 5, 3, 7]
  {
    cs := [Corner(i, 0), Corner(i, 1), Corner(i, 2), Corner(i, 3), Corner(i, 4), Corner(i, 5)];
  }

  /** Face `i` uses exactly the four corners whose bit on axis `i >> 1` is `i % 2`. */
  lemma FaceIsSide(i: nat)
    requires i < 6
    ensures FaceCorners(i) == set c | 0 <= c < 8 && Bit(c, i / 2) == i % 2
  {
    var cs := FaceTable(i);
    var side := set c | 0 <= c < 8 && Bit(c, i / 2) == i % 2;
    if i == 0 {
      assert side == {0, 1, 2, 3};
    } else if i == 1 {
      assert side == {4, 5, 6, 7};
    } else if i == 2 {
      assert side == {0, 1, 4, 5};
    } else if i == 3 {
      assert side == {2, 3, 6, 7};
    } else if i == 4 {
      assert side == {0, 2, 4, 6};
    } else {
      assert side == {1, 3, 5, 7};
    }
  }

  /** Each of the two triangles of face `i` has three different corners. */
  lemma FaceTriangles(i: nat)
    requires i < 6
    ensures Corner(i, 0) != Corner(i, 1) && Corner(i, 1) != Corner(i, 2) && Corner(i, 0) != Corner(i, 2)
    ensures Corner(i, 3) != Corner(i, 4) && Corner(i, 4) != Corner(i, 5) && Corner(i, 3) != Corner(i, 5)
  {
    var cs := FaceTable(i);
  }

  /** The normal of face `i` is the unit vector along axis `i >> 1`, with sign `(i % 2) * 2 - 1`. */
  lemma NormalIsUnitAxis(i: nat, a: nat)
    requires i < 6 && a < 3
    ensures Coord(Normal(i), a) == if a == i / 2 then (if i % 2 == 0 then -1.0 else 1.0) else 0.0
  {
  }

  /** The texture coordinates of face `i`, when the polyhedron has an entry for that face. */
  function FaceUvs(p: Poly8, i: nat): Option<seq<Uv>> {
    if p.uvs.Some? && i < |p.uvs.value| then Some(p.uvs.value[i]) else None
  }

  /** The corner vertex `this.verts[ix * 4 + iy * 2 + iz]`, when it exists. */
  function CornerVert(p: Poly8, i: nat, j: nat): Option<Vec>
    requires i < 6 && j < 6
  {
    if Corner(i, j) < |p.verts| then Some(p.verts[Corner(i, j)]) else None
  }

  /** The UV of vertex `j` of face `i`: the face's entry `vi[0] * 2 + vi[1]` when the face has UVs, else `vi` itself. */
  function UvOf(p: Poly8, i: nat, j: nat): Option<Uv>
    requires i < 6 && j < 6
  {
    var k := Vi(j, 0) * 2 + Vi(j, 1);
    match FaceUvs(p, i)
    case None => Some(Uv(Vi(j, 0) as real, Vi(j, 1) as real))
    case Some(face) => if k < |face| then Some(face[k]) else None
  }

  /** Every corner and every UV `createMesh` reads exists, so it does not throw. */
  ghost predicate Buildable(p: Poly8) {
    forall i, j :: 0 <= i < 6 && 0 <= j < 6 ==> CornerVert(p, i, j).Some? && UvOf(p, i, j).Some?
  }

  /**
   * `createMesh` can build the mesh exactly when there are at least eight
   * corners and every face that has UVs has at least four.
   */
  lemma BuildableIff(p: Poly8)
    ensures Buildable(p) <==>
      |p.verts| >= 8 && forall i :: 0 <= i < 6 && FaceUvs(p, i).Some? ==> |FaceUvs(p, i).value| >= 4
  {
    if Buildable(p) {
      assert Corner(1, 5) == 7 && CornerVert(p, 1, 5).Some?;
      forall i | 0 <= i < 6 && FaceUvs(p, i).Some?
        ensures |FaceUvs(p, i).value| >= 4
      {
        assert UvOf(p, i, 5).Some?;
      }
    }
  }

  /** The first `n` vertices, normals and UVs of the mesh hold what face `n / 6`'s loop pushes. */
  ghost predicate Filled(p: Poly8, verts: seq<Vec>, norms: seq<Vec>, uvs: seq<Uv>, n: nat) {
    |verts| == n && |norms| == n && |uvs| == n
    && forall i, j :: 0 <= i < 6 && 0 <= j < 6 && 6 * i + j < n ==>
      CornerVert(p, i, j) == Some(verts[6 * i + j]) && norms[6 * i + j] == Normal(i)
      && UvOf(p, i, j) == Some(uvs[6 * i + j])
  }

  lemma FilledStep(p: Poly8, verts: seq<Vec>, norms: seq<Vec>, uvs: seq<Uv>, i: nat, j: nat)
    requires i < 6 && j < 6 && Filled(p, verts, norms, uvs, 6 * i + j)
    requires CornerVert(p, i, j).Some? && UvOf(p, i, j).Some?
    ensures Filled(p, verts + [CornerVert(p, i, j).value], norms + [Normal(i)], uvs + [UvOf(p, i, j).value], 6 * i + j + 1)
  {
    var n := 6 * i + j;
    var verts', norms', uvs' := verts + [CornerVert(p, i, j).value], norms + [Normal(i)], uvs + [UvOf(p, i, j).value];
    forall i', j' | 0 <= i' < 6 && 0 <= j' < 6 && 6 * i' + j' < n + 1
      ensures CornerVert(p, i', j') == Some(verts'[6 * i' + j']) && norms'[6 * i' + j'] == Normal(i')
        && UvOf(p, i', j') == Some(uvs'[6 * i' + j'])
    {
      if 6 * i' + j' == n {
        assert i' == i && j' == j;
      }
    }
  }

  /** One pass of the inner loop: vertex `j` of face `i`, with its normal and UV. */
  method PushVertex(mesh: Mesh, p: Poly8, i: nat, j: nat, normal: Vec, faceUvs: Option<seq<Uv>>) returns (r: Outcome)
    requires i < 6 && j < 6 && normal == Normal(i) && faceUvs == FaceUvs(p, i)
    modifies mesh`verts, mesh`norms, mesh`uvs
    ensures r.Pass? <==> CornerVert(p, i, j).Some? && UvOf(p, i, j).Some?
    ensures r.Pass? ==>
      && mesh.verts == old(mesh.verts) + [CornerVert(p, i, j).value]
      && mesh.norms == old(mesh.norms) + [Normal(i)]
      && mesh.uvs == old(mesh.uvs) + [UvOf(p, i, j).value]
  {
    var c := Corner(i, j);
    if c >= |p.verts| {
      return Fail("Cannot read properties of undefined");
    }
    mesh.verts := mesh.verts + [p.verts[c]];
    mesh.norms := mesh.norms + [normal];
    var k := Vi(j, 0) * 2 + Vi(j, 1);
    if faceUvs.Some? && k >= |faceUvs.value| {
      return Fail("Cannot read properties of undefined");
    }
    var uv := if faceUvs.Some? then faceUvs.value[k] else Uv(Vi(j, 0) as real, Vi(j, 1) as real);
    mesh.uvs := mesh.uvs + [uv];
    r := Pass;
  }

  /**
   * `createMesh()`: six faces of six vertices, vertex `j` of face `i` at
   * position `6 * i + j`, taken from its corner, with the face's normal and
   * its UV.  A missing corner or face UV throws.
   */
  method CreateMesh(p: Poly8) returns (r: Result<Mesh>)
    ensures r.Ok? <==> Buildable(p)
    ensures r.Ok? ==> fresh(r.value) && r.value.Valid() && r.value.parent == null && r.value.offset == 0
    ensures r.Ok? ==> Filled(p, r.value.verts, r.value.norms, r.value.uvs, 36)
  {
    var mesh := new Mesh.Init([], [], []);
    var i := 0;
    while i < 6
      invariant 0 <= i <= 6 && fresh(mesh) && mesh.parent == null && mesh.offset == 0
      invariant Filled(p, mesh.verts, mesh.norms, mesh.uvs, 6 * i)
    {
      var normal := Normal(i);
      var faceUvs := if p.uvs.Some? && i < |p.uvs.value| then Some(p.uvs.value[i]) else None;
      var j := 0;
      while j < 6
        invariant 0 <= j <= 6 && mesh.parent == null && mesh.offset == 0
        invariant Filled(p, mesh.verts, mesh.norms, mesh.uvs, 6 * i + j)
      {
        ghost var verts, norms, uvs := mesh.verts, mesh.norms, mesh.uvs;
        var pushed := PushVertex(mesh, p, i, j, normal, faceUvs);
        if pushed.Fail? {
          return Err(pushed.message);
        }
        FilledStep(p, verts, norms, uvs, i, j);
        j := j + 1;
      }
      i := i + 1;
    }
    r := Ok(mesh);
  }

  /** The mesh of a buildable polyhedron has 36 vertices, normals and UVs, a multiple of three. */
  lemma MeshSize(p: Poly8, verts: seq<Vec>, norms: seq<Vec>, uvs: seq<Uv>)
    requires Filled(p, verts, norms, uvs, 36)
    ensures |verts| == 36 && |norms| == 36 && |uvs| == 36 && Buildable(p)
  {
    forall i, j | 0 <= i < 6 && 0 <= j < 6
      ensures CornerVert(p, i, j).Some? && UvOf(p, i, j).Some?
    {
      assert 6 * i + j < 36;
    }
  }

  // The cuboid

  /** Corner `c` of the cuboid from `lo` to `hi`: on each axis, `hi`'s coordinate when the corner's bit is set. */
  function CuboidCorner(lo: Vec, hi: Vec, c: nat): (v: Vec)
    requires c < 8
    ensures forall a :: 0 <= a < 3 ==> Coord(v, a) == if Bit(c, a) == 1 then Coord(hi, a) else Coord(lo, a)
  {
    Vec(if c / 4 % 2 == 1 then hi.x else lo.x, if c / 2 % 2 == 1 then hi.y else lo.y, if c % 2 == 1 then hi.z else lo.z)
  }

  function RealMin(a: real, b: real): real {
    if a <= b then a else b
  }

  function RealMax(a: real, b: real): real {
    if a <= b then b else a
  }

  /**
   * `axisAligned(x0, y0, z0, x1, y1, z1, uvs)`: the eight corners of the cuboid,
   * corner `ix * 4 + iy * 2 + iz` at `(x_ix, y_iy, z_iz)`, whose bounding box
   * runs from the smaller to the larger coordinate on each axis.
   */
  method AxisAligned(x0: real, y0: real, z0: real, x1: real, y1: real, z1: real, uvs: Option<seq<seq<Uv>>>)
    returns (p: Poly8)
    ensures |p.verts| == 8 && p.uvs == uvs
    ensures forall c :: 0 <= c < 8 ==> p.verts[c] == CuboidCorner(Vec(x0, y0, z0), Vec(x1, y1, z1), c)
    ensures p.aabb == AABB(Fin(RealMin(x0, x1)), Fin(RealMin(y0, y1)), Fin(RealMin(z0, z1)),
                           Fin(RealMax(x0, x1)), Fin(RealMax(y0, y1)), Fin(RealMax(z0, z1)))
  {
    var lo, hi := Vec(x0, y0, z0), Vec(x1, y1, z1);
    var verts := [Vec(x0, y0, z0), Vec(x0, y0, z1), Vec(x0, y1, z0), Vec(x0, y1, z1),
                  Vec(x1, y0, z0), Vec(x1, y0, z1), Vec(x1, y1, z0), Vec(x1, y1, z1)];
    assert forall c :: 0 <= c < 8 ==> verts[c] == CuboidCorner(lo, hi, c);
    p := NewPoly8(verts, uvs);
    forall a | 0 <= a < 3
      ensures Lo(p.aabb, a) == Fin(RealMin(Coord(lo, a), Coord(hi, a)))
      ensures Hi(p.aabb, a) == Fin(RealMax(Coord(lo, a), Coord(hi, a)))
    {
      assert Coord(verts[0], a) == Coord(lo, a) && Coord(verts[7], a) == Coord(hi, a);
      assert forall c :: 0 <= c < 8 ==> Coord(verts[c], a) == Coord(lo, a) || Coord(verts[c], a) == Coord(hi, a);
    }
    assert Lo(p.aabb, 0) == p.aabb.x0 && Lo(p.aabb, 1) == p.aabb.y0 && Lo(p.aabb, 2) == p.aabb.z0;
    assert Hi(p.aabb, 0) == p.aabb.x1 && Hi(p.aabb, 1) == p.aabb.y1 && Hi(p.aabb, 2) == p.aabb.z1;
  }

  function Dot(u: Vec, v: Vec): real {
    u.x * v.x + u.y * v.y + u.z * v.z
  }

  function Sub(u: Vec, v: Vec): Vec {
    Vec(u.x - v.x, u.y - v.y, u.z - v.z)
  }

  /**
   * For a cuboid with `lo <= hi` on every axis, every vertex of face `i` lies on
   * the face's side of the box, and the face's normal points away from the
   * box: no corner lies in front of the face.
   */
  lemma FaceOutward(lo: Vec, hi: Vec, i: nat, j: nat, c: nat)
    requires lo.x <= hi.x && lo.y <= hi.y && lo.z <= hi.z
    requires i < 6 && j < 6 && c < 8
    ensures Coord(CuboidCorner(lo, hi, Corner(i, j)), i / 2) == if i % 2 == 0 then Coord(lo, i / 2) else Coord(hi, i / 2)
    ensures Dot(Normal(i), Sub(CuboidCorner(lo, hi, c), CuboidCorner(lo, hi, Corner(i, j)))) <= 0.0
  {
    FaceIsSide(i);
    assert Corner(i, j) in FaceCorners(i);
    var a := i / 2;
    var v, w := CuboidCorner(lo, hi, Corner(i, j)), CuboidCorner(lo, hi, c);
    assert Coord(lo, a) <= Coord(w, a) <= Coord(hi, a);
    DotOnAxis(Normal(i), Sub(w, v), a);
  }

  /** A vector with a single non-zero coordinate `a` has, with any `d`, the dot product `n_a * d_a`. */
  lemma DotOnAxis(n: Vec, d: Vec, a: nat)
    requires a < 3 && forall b :: 0 <= b < 3 && b != a ==> Coord(n, b) == 0.0
    ensures Dot(n, d) == Coord(n, a) * Coord(d, a)
  {
    assert Coord(n, 0) == n.x && Coord(n, 1) == n.y && Coord(n, 2) == n.z;
  }
}
