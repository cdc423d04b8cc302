/**
 * Triangle meshes (src/math/mesh.ts): vertex positions, normals and texture
 * coordinates kept in step, meshes combined into one with each part knowing
 * its offset, and parts transformed or copied into a range of a larger mesh.
 * The matrix transforms are parameters.
 */
module Meshes {
  import opened Wrappers
  import opened Objects

  /** A texture coordinate (`Vec2`). */
  datatype Uv = Uv(u: real, v: real)

  /** A vertex transform: `vec3.transformMat4` with a fixed matrix, or `vec3.transformMat3`. */
  type VertexMap = Vec -> Vec

  /** The elements of `xs`, then those of `ys`, and so on. */
  function Flatten<T>(xss: seq<seq<T>>): (r: seq<T>)
  {
    if xss == [] then [] else Flatten(xss[..|xss| - 1]) + xss[|xss| - 1]
  }

  /** Element `k` of part `i` sits at the part's offset, the length of the earlier parts, plus `k`. */
  lemma {:induction false} FlattenAt<T>(xss: seq<seq<T>>, i: nat, k: nat)
    requires i < |xss| && k < |xss[i]|
    ensures |Flatten(xss[..i])| + k < |Flatten(xss)|
    ensures Flatten(xss)[|Flatten(xss[..i])| + k] == xss[i][k]
  {
    var init := xss[..|xss| - 1];
    if i == |xss| - 1 {
      assert xss[..i] == init;
    } else {
      FlattenAt(init, i, k);
      assert init[..i] == xss[..i];
    }
  }

  /** The flattened length is a multiple of three when every part's is. */
  lemma {:induction false} FlattenTriangles<T>(xss: seq<seq<T>>)
    requires forall i :: 0 <= i < |xss| ==> |xss[i]| % 3 == 0
    ensures |Flatten(xss)| % 3 == 0
  {
    if xss != [] {
      FlattenTriangles(xss[..|xss| - 1]);
    }
  }

  /** Parts of equal lengths flatten to equal lengths. */
  lemma {:induction false} FlattenSameLength<T, U>(xss: seq<seq<T>>, yss: seq<seq<U>>)
    requires |xss| == |yss| && forall i :: 0 <= i < |xss| ==> |xss[i]| == |yss[i]|
    ensures |Flatten(xss)| == |Flatten(yss)|
  {
    if xss != [] {
      FlattenSameLength(xss[..|xss| - 1], yss[..|yss| - 1]);
    }
  }

  /** A mesh: three arrays of the same length, a multiple of three, and its place in a combined mesh. */
  class Mesh {
    var verts: seq<Vec>
    var norms: seq<Vec>
    var uvs: seq<Uv>
    var parent: Mesh?
    var offset: int

    /** What the constructor checks, and a part offset that is never negative. */
    ghost predicate Valid()
      reads this
    {
      |verts| % 3 == 0 && |norms| == |verts| && |uvs| == |verts| && offset >= 0
    }

    /** The fields as the constructor sets them, before its checks. */
    constructor Init(verts: seq<Vec>, norms: seq<Vec>, uvs: seq<Uv>)
      ensures this.verts == verts && this.norms == norms && this.uvs == uvs
      ensures parent == null && offset == 0
    {
      this.verts, this.norms, this.uvs := verts, norms, uvs;
      parent, offset := null, 0;
    }

    /**
     * `clone()`: a new mesh with equal copies of the three arrays, no parent
     * and offset 0; it passes the constructor's checks exactly when this mesh
     * does.
     */
    method Clone() returns (r: Result<Mesh>)
      ensures r.Ok? <==> |verts| % 3 == 0 && |norms| == |verts| && |uvs| == |verts|
      ensures Valid() ==> r.Ok?
      ensures r.Ok? ==> (fresh(r.value) && r.value.Valid()
        && r.value.verts == verts && r.value.norms == norms && r.value.uvs == uvs
        && r.value.parent == null && r.value.offset == 0)
    {
      r := NewMesh(Some(verts), Some(norms), Some(uvs));
    }
  }

  /** `x || []` for an array argument: only an absent array is replaced. */
  function OrEmpty<T>(xs: Option<seq<T>>): seq<T> {
    if xs.Some? then xs.value else []
  }

  /**
   * `new Mesh(verts, norms, uvs)`: absent arrays become empty; the vertex
   * count must be a multiple of three and match the normals and then the UVs,
   * each failed check throwing its own message.
   */
  method NewMesh(verts: Option<seq<Vec>>, norms: Option<seq<Vec>>, uvs: Option<seq<Uv>>) returns (r: Result<Mesh>)
    ensures var n := |OrEmpty(verts)|;
      r.Ok? <==> n % 3 == 0 && |OrEmpty(norms)| == n && |OrEmpty(uvs)| == n
    ensures r.Err? ==> (r.message ==
      if |OrEmpty(verts)| % 3 != 0 then "triangle mesh, n must be a multiple of 3"
      else if |OrEmpty(norms)| != |OrEmpty(verts)| then "mesh must have same # of verts and norms"
      else "mesh must have same # of verts and uvs")
    ensures r.Ok? ==> (fresh(r.value) && r.value.Valid()
      && r.value.verts == OrEmpty(verts) && r.value.norms == OrEmpty(norms) && r.value.uvs == OrEmpty(uvs)
      && r.value.parent == null && r.value.offset == 0)
  {
    var m := new Mesh.Init(OrEmpty(verts), OrEmpty(norms), OrEmpty(uvs));
    var n := |m.verts|;
    if n % 3 != 0 {
      return Err("triangle mesh, n must be a multiple of 3");
    }
    if n != |m.norms| {
      return Err("mesh must have same # of verts and norms");
    }
    if n != |m.uvs| {
      return Err("mesh must have same # of verts and uvs");
    }
    r := Ok(m);
  }

  // Combining meshes

  function VertsOf(meshes: seq<Mesh>): (r: seq<seq<Vec>>)
    reads meshes
    ensures |r| == |meshes| && forall i :: 0 <= i < |meshes| ==> r[i] == meshes[i].verts
  {
    seq(|meshes|, i requires 0 <= i < |meshes| reads meshes => meshes[i].verts)
  }

  function NormsOf(meshes: seq<Mesh>): (r: seq<seq<Vec>>)
    reads meshes
    ensures |r| == |meshes| && forall i :: 0 <= i < |meshes| ==> r[i] == meshes[i].norms
  {
    seq(|meshes|, i requires 0 <= i < |meshes| reads meshes => meshes[i].norms)
  }

  function UvsOf(meshes: seq<Mesh>): (r: seq<seq<Uv>>)
    reads meshes
    ensures |r| == |meshes| && forall i :: 0 <= i < |meshes| ==> r[i] == meshes[i].uvs
  {
    seq(|meshes|, i requires 0 <= i < |meshes| reads meshes => meshes[i].uvs)
  }

  /** The index of the last occurrence of `x` in `s`: the entry whose offset `combine` leaves in place. */
  function LastIndex<T(==)>(s: seq<T>, x: T): (r: nat)
    requires x in s
    ensures r < |s| && s[r] == x
    ensures forall j :: r < j < |s| ==> s[j] != x
  {
    if s[|s| - 1] == x then |s| - 1 else LastIndex(s[..|s| - 1], x)
  }

  /** One step of `combine`: the part points at the result, records its offset and is appended. */
  method Attach(ret: Mesh, m: Mesh)
    requires ret != m
    modifies ret`verts, ret`norms, ret`uvs, m`parent, m`offset
    ensures m.parent == ret && m.offset == |old(ret.verts)|
    ensures ret.verts == old(ret.verts) + m.verts && ret.norms == old(ret.norms) + m.norms
    ensures ret.uvs == old(ret.uvs) + m.uvs
  {
    m.parent, m.offset := ret, |ret.verts|;
    ret.verts, ret.norms, ret.uvs := ret.verts + m.verts, ret.norms + m.norms, ret.uvs + m.uvs;
  }

  /**
   * The state of `combine` after the first `i` parts: the result holds their
   * concatenated arrays, and each of them points at the result with the offset
   * recorded at its last occurrence so far.
   */
  ghost predicate CombinedUpTo(meshes: seq<Mesh>, ret: Mesh, vs: seq<seq<Vec>>, ns: seq<seq<Vec>>, us: seq<seq<Uv>>, i: nat)
    reads meshes, ret
  {
    && i <= |meshes| && |vs| == |meshes| && |ns| == |meshes| && |us| == |meshes|
    && ret.verts == Flatten(vs[..i]) && ret.norms == Flatten(ns[..i]) && ret.uvs == Flatten(us[..i])
    && (forall m: Mesh :: m in meshes[..i] ==> m.parent == ret)
    && (forall m: Mesh :: m in meshes[..i] ==> m.offset == |Flatten(vs[..LastIndex(meshes[..i], m)])|)
  }

  /** One pass of the `combine` loop: attaches part `i` and keeps the loop state. */
  method CombineNext(meshes: seq<Mesh>, ret: Mesh, ghost vs: seq<seq<Vec>>, ghost ns: seq<seq<Vec>>, ghost us: seq<seq<Uv>>,
                     i: nat, part: Mesh)
    requires i < |meshes| && part == meshes[i] && ret !in meshes
    requires CombinedUpTo(meshes, ret, vs, ns, us, i)
    requires part.verts == vs[i] && part.norms == ns[i] && part.uvs == us[i]
    modifies ret`verts, ret`norms, ret`uvs, part`parent, part`offset
    ensures CombinedUpTo(meshes, ret, vs, ns, us, i + 1)
  {
    Attach(ret, part);
    FlattenSnoc(vs, i);
    FlattenSnoc(ns, i);
    FlattenSnoc(us, i);
    forall m | m in meshes[..i + 1]
      ensures LastIndex(meshes[..i + 1], m) == if m == meshes[i] then i else LastIndex(meshes[..i], m)
    {
      LastIndexSnoc(meshes, i, m);
    }
  }

  /**
   * `Mesh.combine(meshes)`: a new mesh whose arrays are the parts' arrays one
   * after the other; every part gets the result as its parent and, at its last
   * occurrence in the list, the number of vertices before it as its offset.
   */
  method Combine(meshes: seq<Mesh>) returns (ret: Mesh)
    modifies meshes
    ensures fresh(ret) && ret.parent == null && ret.offset == 0
    ensures forall m :: m in meshes ==> m.verts == old(m.verts) && m.norms == old(m.norms) && m.uvs == old(m.uvs)
    ensures ret.verts == Flatten(VertsOf(meshes)) && ret.norms == Flatten(NormsOf(meshes))
    ensures ret.uvs == Flatten(UvsOf(meshes))
    ensures forall m :: m in meshes ==> m.parent == ret
    ensures forall m :: m in meshes ==> m.offset == |Flatten(VertsOf(meshes)[..LastIndex(meshes, m)])|
  {
    ghost var vs, ns, us := VertsOf(meshes), NormsOf(meshes), UvsOf(meshes);
    ret := new Mesh.Init([], [], []);
    var i := 0;
    while i < |meshes|
      invariant fresh(ret) && ret.parent == null && ret.offset == 0
      invariant forall j :: 0 <= j < |meshes| ==>
        meshes[j].verts == vs[j] && meshes[j].norms == ns[j] && meshes[j].uvs == us[j]
      invariant CombinedUpTo(meshes, ret, vs, ns, us, i)
    {
      CombineNext(meshes, ret, vs, ns, us, i, meshes[i]);
      i := i + 1;
    }
    assert meshes[..|meshes|] == meshes;
    assert vs[..|meshes|] == vs && ns[..|meshes|] == ns && us[..|meshes|] == us;
    assert VertsOf(meshes) == vs;
    assert NormsOf(meshes) == ns;
    assert UvsOf(meshes) == us;
  }

  /** The last occurrence in a longer prefix is the new entry, or else the one before. */
  lemma LastIndexSnoc<T>(s: seq<T>, i: nat, x: T)
    requires i < |s| && x in s[..i + 1]
    ensures x != s[i] ==> x in s[..i]
    ensures LastIndex(s[..i + 1], x) == if x == s[i] then i else LastIndex(s[..i], x)
  {
    assert s[..i + 1][..i] == s[..i];
  }

  /** Flattening one more part appends that part. */
  lemma FlattenSnoc<T>(xss: seq<seq<T>>, i: nat)
    requires i < |xss|
    ensures Flatten(xss[..i + 1]) == Flatten(xss[..i]) + xss[i]
  {
    assert xss[..i + 1][..i] == xss[..i];
  }

  /**
   * After `combine`, each part's vertices are found in the result at the
   * part's offset, so the part addresses its own range of the combined mesh.
   */
  lemma CombinedPartAt(meshes: seq<Mesh>, combined: seq<Vec>, i: nat, k: nat)
    requires i < |meshes| && k < |meshes[i].verts|
    requires combined == Flatten(VertsOf(meshes))
    requires meshes[i].offset == |Flatten(VertsOf(meshes)[..i])|
    ensures meshes[i].offset + k < |combined| && combined[meshes[i].offset + k] == meshes[i].verts[k]
  {
    FlattenAt(VertsOf(meshes), i, k);
  }

  /** Combining meshes that pass the constructor's checks gives a mesh that passes them. */
  lemma CombinedValid(meshes: seq<Mesh>, verts: seq<Vec>, norms: seq<Vec>, uvs: seq<Uv>)
    requires forall i :: 0 <= i < |meshes| ==> meshes[i].Valid()
    requires verts == Flatten(VertsOf(meshes)) && norms == Flatten(NormsOf(meshes)) && uvs == Flatten(UvsOf(meshes))
    ensures |verts| % 3 == 0 && |norms| == |verts| && |uvs| == |verts|
  {
    FlattenTriangles(VertsOf(meshes));
    FlattenSameLength(VertsOf(meshes), NormsOf(meshes));
    FlattenSameLength(VertsOf(meshes), UvsOf(meshes));
  }

  // Writing a part into a range

  /**
   * `offset = offset || input.offset`: an absent offset and an offset of 0 both
   * fall back to the part's own offset.
   */
  function EffectiveOffset(offset: Option<int>, partOffset: int): (r: int)
    ensures offset.Some? && offset.value != 0 ==> r == offset.value
    ensures offset.None? || offset == Some(0) ==> r == partOffset
  {
    if offset.None? || offset.value == 0 then partOffset else offset.value
  }

  /**
   * The output array after the loop's first `n` steps, step `i` writing
   * `f` of input element `i` at `offset + i`.  When the output and the input
   * are one mesh (`same`), each step reads what the earlier steps wrote.
   */
  function Written<T>(out: seq<T>, inp: seq<T>, offset: int, n: nat, f: T -> T, same: bool): (r: seq<T>)
    requires n > 0 ==> 0 <= offset
    requires offset + n <= |out| && n <= |inp|
    ensures |r| == |out|
  {
    if n == 0 then out
    else
      var prev := Written(out, inp, offset, n - 1, f, same);
      prev[offset + n - 1 := f((if same then prev else inp)[n - 1])]
  }

  /** The loop writes nothing outside `[offset, offset + n)`. */
  lemma {:induction false} WrittenOutside<T>(out: seq<T>, inp: seq<T>, offset: int, n: nat, f: T -> T, same: bool, j: int)
    requires n > 0 ==> 0 <= offset
    requires offset + n <= |out| && n <= |inp|
    requires 0 <= j < |out| && !(offset <= j < offset + n)
    ensures Written(out, inp, offset, n, f, same)[j] == out[j]
  {
    if n > 0 {
      WrittenOutside(out, inp, offset, n - 1, f, same, j);
    }
  }

  /** From a different mesh, position `offset + i` ends as `f` of input element `i`. */
  lemma {:induction false} WrittenInside<T>(out: seq<T>, inp: seq<T>, offset: int, n: nat, f: T -> T, i: nat)
    requires n > 0 ==> 0 <= offset
    requires offset + n <= |out| && n <= |inp| && i < n
    ensures Written(out, inp, offset, n, f, false)[offset + i] == f(inp[i])
  {
    if i < n - 1 {
      WrittenInside(out, inp, offset, n - 1, f, i);
    }
  }

  /**
   * At offset 0, position `i` ends as `f` of input element `i`, also in place:
   * step `i` reads position `i` before any step writes it.
   */
  lemma {:induction false} WrittenAligned<T>(out: seq<T>, inp: seq<T>, n: nat, f: T -> T, same: bool, i: nat)
    requires n <= |out| && n <= |inp| && i < n
    requires same ==> out == inp
    ensures Written(out, inp, 0, n, f, same)[i] == f(inp[i])
  {
    if i < n - 1 {
      WrittenAligned(out, inp, n - 1, f, same, i);
    } else if same {
      WrittenOutside(out, inp, 0, n - 1, f, same, n - 1);
    }
  }

  /** One step of the loop: output vertex and normal `offset + i` from input vertex and normal `i`. */
  method WriteAt(output: Mesh, input: Mesh, i: nat, offset: int, f: VertexMap, g: VertexMap)
    requires i < |input.verts| && i < |input.norms|
    requires 0 <= offset + i < |output.verts| && offset + i < |output.norms|
    modifies output`verts, output`norms
    ensures output.verts == old(output.verts)[offset + i := f(old(input.verts)[i])]
    ensures output.norms == old(output.norms)[offset + i := g(old(input.norms)[i])]
  {
    var vertIn, normIn := input.verts[i], input.norms[i];
    output.verts, output.norms := output.verts[offset + i := f(vertIn)], output.norms[offset + i := g(normIn)];
  }

  /** The loop of `transformPart` and `copyPart` over a range already checked. */
  method WriteRange(output: Mesh, input: Mesh, offset: int, f: VertexMap, g: VertexMap)
    requires output.Valid() && input.Valid()
    requires |input.verts| > 0 ==> 0 <= offset
    requires offset + |input.verts| <= |output.verts|
    modifies output`verts, output`norms
    ensures output.Valid()
    ensures output.verts == Written(old(output.verts), old(input.verts), offset, |old(input.verts)|, f, output == input)
    ensures output.norms == Written(old(output.norms), old(input.norms), offset, |old(input.verts)|, g, output == input)
  {
    var n := |input.verts|;
    ghost var verts0, norms0, inVerts0, inNorms0 := output.verts, output.norms, input.verts, input.norms;
    var i := 0;
    while i < n
      invariant 0 <= i <= n
      invariant output.verts == Written(verts0, inVerts0, offset, i, f, output == input)
      invariant output.norms == Written(norms0, inNorms0, offset, i, g, output == input)
      invariant output != input ==> input.verts == inVerts0 && input.norms == inNorms0
      invariant |input.verts| == n && |input.norms| == n
    {
      WriteAt(output, input, i, offset, f, g);
      i := i + 1;
    }
  }

  /** The vertex copy of `copyPart` (`vec3.copy`). */
  function Identity(v: Vec): Vec {
    v
  }

  /**
   * `Mesh.transformPart(output, input, mat, matNorm, offset)`: missing
   * matrices throw; the offset falls back to the part's own when absent or 0;
   * a range past the end of the output throws; otherwise output vertex and
   * normal `offset + i` become the transformed input vertex and normal `i`.
   * A negative offset with a non-empty input reaches an output vertex that does
   * not exist, and the transform throws on it before writing anything.
   */
  method TransformPart(output: Mesh, input: Mesh, mat: Option<VertexMap>, matNorm: Option<VertexMap>, offset: Option<int>)
    returns (r: Outcome)
    requires output.Valid() && input.Valid()
    modifies output`verts, output`norms
    ensures output.Valid()
    ensures var off, n := EffectiveOffset(offset, old(input.offset)), |old(input.verts)|;
      r.Fail? <==> mat.None? || matNorm.None? || off + n > |old(output.verts)| || (off < 0 && n > 0)
    ensures r.Fail? ==> output.verts == old(output.verts) && output.norms == old(output.norms)
    ensures r.Pass? ==> var off, n := EffectiveOffset(offset, old(input.offset)), |old(input.verts)|;
      && output.verts == Written(old(output.verts), old(input.verts), off, n, mat.value, output == input)
      && output.norms == Written(old(output.norms), old(input.norms), off, n, matNorm.value, output == input)
  {
    if mat.None? || matNorm.None? {
      return Fail("missing args");
    }
    var off := EffectiveOffset(offset, input.offset);
    var n := |input.verts|;
    if off + n > |output.verts| {
      return Fail("transformed part out of range");
    }
    if off < 0 && n > 0 {
      return Fail("Cannot read properties of undefined");
    }
    WriteRange(output, input, off, mat.value, matNorm.value);
    r := Pass;
  }

  /**
   * `Mesh.copyPart(output, input, offset)`: the same range rule as
   * `transformPart`, with the vertices and normals copied unchanged.
   */
  method CopyPart(output: Mesh, input: Mesh, offset: Option<int>) returns (r: Outcome)
    requires output.Valid() && input.Valid()
    modifies output`verts, output`norms
    ensures output.Valid()
    ensures var off, n := EffectiveOffset(offset, old(input.offset)), |old(input.verts)|;
      r.Fail? <==> off + n > |old(output.verts)| || (off < 0 && n > 0)
    ensures r.Fail? ==> output.verts == old(output.verts) && output.norms == old(output.norms)
    ensures r.Pass? ==> var off, n := EffectiveOffset(offset, old(input.offset)), |old(input.verts)|;
      && output.verts == Written(old(output.verts), old(input.verts), off, n, Identity, output == input)
      && output.norms == Written(old(output.norms), old(input.norms), off, n, Identity, output == input)
  {
    var off := EffectiveOffset(offset, input.offset);
    var n := |input.verts|;
    if off + n > |output.verts| {
      return Fail("transformed part out of range");
    }
    if off < 0 && n > 0 {
      return Fail("Cannot read properties of undefined");
    }
    WriteRange(output, input, off, Identity, Identity);
    r := Pass;
  }

  /**
   * `copyPart` from another mesh: the output range holds the input's vertices
   * and normals and every other entry is unchanged.
   */
  lemma CopiedPart(out: seq<Vec>, inp: seq<Vec>, offset: int, j: int)
    requires |inp| > 0 ==> 0 <= offset
    requires offset + |inp| <= |out| && 0 <= j < |out|
    ensures Written(out, inp, offset, |inp|, Identity, false)[j] ==
      if offset <= j < offset + |inp| then inp[j - offset] else out[j]
  {
    if offset <= j < offset + |inp| {
      WrittenInside(out, inp, offset, |inp|, Identity, j - offset);
    } else {
      WrittenOutside(out, inp, offset, |inp|, Identity, false, j);
    }
  }

  /**
   * `Mesh.transform(output, input, mat, matNorm)` as written: meshes of
   * different sizes throw, and the rest is `transformPart` with offset 0,
   * which the fallback turns into the input's own offset.
   */
  method Transform(output: Mesh, input: Mesh, mat: Option<VertexMap>, matNorm: Option<VertexMap>) returns (r: Outcome)
    requires output.Valid() && input.Valid()
    modifies output`verts, output`norms
    ensures output.Valid()
    ensures r.Fail? <==> |old(output.verts)| != |old(input.verts)| || mat.None? || matNorm.None? || old(input.offset) > 0
    ensures r.Fail? ==> output.verts == old(output.verts) && output.norms == old(output.norms)
    ensures r.Pass? ==>
      forall j :: 0 <= j < |output.verts| ==>
        output.verts[j] == mat.value(old(input.verts)[j]) && output.norms[j] == matNorm.value(old(input.norms)[j])
  {
    if |output.verts| != |input.verts| {
      return Fail("transform input and output meshes must be the same size");
    }
    ghost var inVerts, inNorms, outVerts, outNorms := input.verts, input.norms, output.verts, output.norms;
    r := TransformPart(output, input, mat, matNorm, Some(0));
    if r.Pass? {
      forall j | 0 <= j < |output.verts|
        ensures output.verts[j] == mat.value(inVerts[j]) && output.norms[j] == matNorm.value(inNorms[j])
      {
        WrittenAligned(outVerts, inVerts, |inVerts|, mat.value, output == input, j);
        WrittenAligned(outNorms, inNorms, |inVerts|, matNorm.value, output == input, j);
      }
    }
  }

  /**
   * A part of a combined mesh (offset `k > 0`) passed to `transform` with an
   * output of its own size is rejected: the range check sees `k + n > n`.
   */
  lemma TransformRejectsParts(n: nat, k: int)
    requires n > 0 && k > 0
    ensures EffectiveOffset(Some(0), k) + n > n
  {
  }

  /**
   * `Mesh.transform` as intended: meshes of the same size, every output vertex
   * and normal the transformed input vertex and normal at the same index,
   * whatever the input's offset.
   */
  method TransformWhole(output: Mesh, input: Mesh, mat: Option<VertexMap>, matNorm: Option<VertexMap>) returns (r: Outcome)
    requires output.Valid() && input.Valid()
    modifies output`verts, output`norms
    ensures output.Valid()
    ensures r.Fail? <==> |old(output.verts)| != |old(input.verts)| || mat.None? || matNorm.None?
    ensures r.Fail? ==> output.verts == old(output.verts) && output.norms == old(output.norms)
    ensures r.Pass? ==>
      forall j :: 0 <= j < |output.verts| ==>
        output.verts[j] == mat.value(old(input.verts)[j]) && output.norms[j] == matNorm.value(old(input.norms)[j])
  {
    if |output.verts| != |input.verts| {
      return Fail("transform input and output meshes must be the same size");
    }
    if mat.None? || matNorm.None? {
      return Fail("missing args");
    }
    ghost var inVerts, inNorms, outVerts, outNorms := input.verts, input.norms, output.verts, output.norms;
    WriteRange(output, input, 0, mat.value, matNorm.value);
    r := Pass;
    forall j | 0 <= j < |output.verts|
      ensures output.verts[j] == mat.value(inVerts[j]) && output.norms[j] == matNorm.value(inNorms[j])
    {
      WrittenAligned(outVerts, inVerts, |inVerts|, mat.value, output == input, j);
      WrittenAligned(outNorms, inNorms, |inVerts|, matNorm.value, output == input, j);
    }
  }
}
