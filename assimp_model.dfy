/** The non-indexed loader (`AssimpModel.h`): `loadModel` walks the node
    hierarchy depth-first and builds one mesh per mesh reference, each with
    an interleaved vertex buffer, a vertex count and a texture loaded from a
    fixed path.  The import runs without normal generation, so missing
    normals fall back to zeros. */
module AssimpModel {
  import opened Wrappers
  import opened VertexLayout
  import opened Assimp
  import opened Textures
  import Triangle2

  /** The `Mesh` structure: its uploaded vertex buffer, `textureID` and `vertexCount`. */
  datatype Mesh<T> = Mesh(vertexBuffer: seq<T>, textureID: Texture, vertexCount: nat)

  /** The `Mesh(vertices, texture)` constructor: the buffer and the texture
      are kept as given, and the vertex count is the number of whole strides
      in the buffer. */
  function NewMesh<T>(vertices: seq<T>, texture: Texture): (m: Mesh<T>)
    ensures m.vertexBuffer == vertices && m.textureID == texture
    ensures Stride * m.vertexCount <= |vertices| < Stride * (m.vertexCount + 1)
  {
    Mesh(vertices, texture, |vertices| / Stride)
  }

  /** The path every mesh's texture is loaded from. */
  const FixedTexturePath: string := "path/to/your/texture.png"

  /** A log of `n` requests to load the fixed-path texture.  The loader's
      methods thread a ghost log of the paths they hand to `loadTexture`,
      one entry per call, so that the number of loads can be stated. */
  function FixedLoads(n: nat): (r: seq<string>)
    ensures |r| == n
    ensures forall k :: 0 <= k < n ==> r[k] == FixedTexturePath
  {
    seq(n, _ => FixedTexturePath)
  }

  /** Logging `a` loads and then `b` more logs `a + b` loads. */
  lemma FixedLoadsAppend(log: seq<string>, a: nat, b: nat)
    ensures (log + FixedLoads(a)) + FixedLoads(b) == log + FixedLoads(a + b)
  {
    assert FixedLoads(a) + FixedLoads(b) == FixedLoads(a + b);
  }

  // ---------------------------------------------------------------------
  // processMesh

  /** Vertex `j` of a mesh: its position, its normal or three zeros when the
      mesh has no normals, and its first-channel UV or two zeros. */
  function FallbackVertex<T>(m: AiMesh<T>, j: nat, zero: T): Vertex<T>
    requires ValidMesh(m) && j < |m.vertices|
  {
    var normal := if HasNormals(m) then ToVec3(m.normals.value[j]) else Vec3(zero, zero, zero);
    Vertex(ToVec3(m.vertices[j]), normal, FirstUv(m, j, zero))
  }

  function FallbackVertices<T>(m: AiMesh<T>, zero: T): (vs: seq<Vertex<T>>)
    requires ValidMesh(m)
    ensures |vs| == |m.vertices|
  {
    seq(|m.vertices|, (j: int) requires 0 <= j < |m.vertices| => FallbackVertex(m, j, zero))
  }

  /** The mesh `processMesh` returns for `mesh`. */
  function ProcessedMesh<T>(mesh: AiMesh<T>, zero: T, images: string -> Option<Image>): Mesh<T>
    requires ValidMesh(mesh)
  {
    NewMesh(Encode(FallbackVertices(mesh, zero)), LoadTexture(FixedTexturePath, images(FixedTexturePath)))
  }

  /** The vertex loop of `processMesh`: per vertex, the position, the
      normal (or three zeros when the mesh has no normals) and the
      first-channel UV (or two zeros) are pushed in that order. */
  method InterleaveWithFallback<T>(mesh: AiMesh<T>, zero: T) returns (vertices: seq<T>)
    requires ValidMesh(mesh)
    ensures vertices == Encode(FallbackVertices(mesh, zero))
    ensures |vertices| == Stride * |mesh.vertices|
    ensures Decode(vertices) == FallbackVertices(mesh, zero)
  {
    ghost var vs := FallbackVertices(mesh, zero);
    vertices := [];
    var i := 0;
    while i < |mesh.vertices|
      invariant 0 <= i <= |mesh.vertices|
      invariant vertices == Encode(vs[..i])
    {
      ghost var before := vertices;
      var p := mesh.vertices[i];
      vertices := vertices + [p.x, p.y, p.z];

      var n := AiVector3D(zero, zero, zero);
      if HasNormals(mesh) {
        n := mesh.normals.value[i];
      }
      vertices := vertices + [n.x, n.y, n.z];

      if mesh.textureCoords0.Some? {
        var tc := mesh.textureCoords0.value;
        vertices := vertices + [tc[i].x, tc[i].y];
      } else {
        vertices := vertices + [zero, zero];
      }

      assert vertices == before + Pack(vs[i]) by {
        assert vs[i] == Vertex(ToVec3(p), ToVec3(n), FirstUv(mesh, i, zero));
      }
      EncodePrefixStep(vs, i);
      i := i + 1;
    }
    assert vertices == Encode(vs) by {
      assert vs[..i] == vs;
    }
    DecodeEncode(vs);
  }

  /** `processMesh`: the interleaved vertices, one texture load from the
      fixed path (logged in `loads`), one `Mesh`. */
  method ProcessMesh<T>(mesh: AiMesh<T>, zero: T, images: string -> Option<Image>, ghost loads: seq<string>)
    returns (m: Mesh<T>, ghost loads': seq<string>)
    requires ValidMesh(mesh)
    ensures m == ProcessedMesh(mesh, zero, images)
    ensures m.vertexCount == |mesh.vertices|
    ensures m.textureID == LoadTexture(FixedTexturePath, images(FixedTexturePath))
    ensures loads' == loads + [FixedTexturePath]
  {
    var vertices := InterleaveWithFallback(mesh, zero);
    var texturePath := FixedTexturePath;
    var textureID := LoadTexture(texturePath, images(texturePath));
    loads' := loads + [texturePath];
    m := NewMesh(vertices, textureID);
  }

  /** Slots 8j..8j+2 hold the position, 8j+3..8j+5 the normal or three zeros
      without normals, 8j+6..8j+7 the first-channel UV or two zeros without
      texture coordinates. */
  lemma FallbackSlots<T>(m: AiMesh<T>, zero: T, j: nat)
    requires ValidMesh(m) && j < |m.vertices|
    ensures |Encode(FallbackVertices(m, zero))| == Stride * |m.vertices|
    ensures var buf, b := Encode(FallbackVertices(m, zero)), Stride * j;
              && buf[b] == m.vertices[j].x && buf[b + 1] == m.vertices[j].y && buf[b + 2] == m.vertices[j].z
              && (HasNormals(m) ==>
                    buf[b + 3] == m.normals.value[j].x && buf[b + 4] == m.normals.value[j].y
                    && buf[b + 5] == m.normals.value[j].z)
              && (!HasNormals(m) ==> buf[b + 3] == zero && buf[b + 4] == zero && buf[b + 5] == zero)
              && (m.textureCoords0.Some? ==>
                    buf[b + 6] == m.textureCoords0.value[j].x && buf[b + 7] == m.textureCoords0.value[j].y)
              && (m.textureCoords0.None? ==> buf[b + 6] == zero && buf[b + 7] == zero)
  {
    EncodeSlots(FallbackVertices(m, zero), j);
  }

  /** For any buffer built from whole vertices, the constructor's
      `vertices.size() / 8` is the number of vertices. */
  lemma {:induction false} VertexCountOfEncoded<T>(vs: seq<Vertex<T>>, texture: Texture)
    ensures NewMesh(Encode(vs), texture).vertexCount == |vs|
  {
    EncodeLength(vs);
  }

  /** Where a mesh has normals, this loader's vertices are exactly those of
      the indexed loader, which reads normals unconditionally. */
  lemma FallbackAgreesWithGenerated<T>(m: AiMesh<T>, zero: T)
    requires Triangle2.NormalsGenerated(m)
    ensures FallbackVertices(m, zero) == Triangle2.SourceVertices(m, zero)
  {
  }

  // ---------------------------------------------------------------------
  // processNode

  /** The mesh references met by a pre-order walk: the node's own `mMeshes`
      in order, then those of each child subtree in child order. */
  function NodeMeshRefs(node: AiNode): seq<nat>
    decreases node
  {
    node.meshes + ChildrenMeshRefs(node.children)
  }

  function ChildrenMeshRefs(children: seq<AiNode>): seq<nat>
    decreases children
  {
    if children == [] then []
    else ChildrenMeshRefs(children[..|children| - 1]) + NodeMeshRefs(children[|children| - 1])
  }

  lemma ChildrenPrefixStep(children: seq<AiNode>, i: nat)
    requires i < |children|
    ensures ChildrenMeshRefs(children[..i + 1]) == ChildrenMeshRefs(children[..i]) + NodeMeshRefs(children[i])
  {
    assert children[..i + 1][..i] == children[..i];
  }

  /** Every mesh reference in the subtree indexes the scene's mesh array. */
  predicate RefsBelow(node: AiNode, count: nat)
    decreases node
  {
    && (forall k :: 0 <= k < |node.meshes| ==> node.meshes[k] < count)
    && (forall c :: 0 <= c < |node.children| ==> RefsBelow(node.children[c], count))
  }

  predicate InRange(refs: seq<nat>, count: nat)
  {
    forall k :: 0 <= k < |refs| ==> refs[k] < count
  }

  predicate MeshesValid<T>(scene: AiScene<T>)
  {
    forall i :: 0 <= i < |scene.meshes| ==> ValidMesh(scene.meshes[i])
  }

  /** The meshes `processMesh` returns for a list of mesh references, one per
      reference, in reference order. */
  function MeshesAt<T>(scene: AiScene<T>, refs: seq<nat>, zero: T, images: string -> Option<Image>): (r: seq<Mesh<T>>)
    requires MeshesValid(scene) && InRange(refs, |scene.meshes|)
    ensures |r| == |refs|
  {
    seq(|refs|, (k: int) requires 0 <= k < |refs| => ProcessedMesh(scene.meshes[refs[k]], zero, images))
  }

  lemma MeshesAtAppend<T>(scene: AiScene<T>, a: seq<nat>, b: seq<nat>, zero: T, images: string -> Option<Image>)
    requires MeshesValid(scene) && InRange(a, |scene.meshes|) && InRange(b, |scene.meshes|)
    ensures InRange(a + b, |scene.meshes|)
    ensures MeshesAt(scene, a + b, zero, images) == MeshesAt(scene, a, zero, images) + MeshesAt(scene, b, zero, images)
  {
  }

  /** The first loop of `processNode`: one `processMesh` per reference, appended in order. */
  method AppendMeshes<T>(refs: seq<nat>, scene: AiScene<T>, zero: T, images: string -> Option<Image>,
                         meshes: seq<Mesh<T>>, ghost loads: seq<string>)
    returns (result: seq<Mesh<T>>, ghost loads': seq<string>)
    requires MeshesValid(scene) && InRange(refs, |scene.meshes|)
    ensures result == meshes + MeshesAt(scene, refs, zero, images)
    ensures loads' == loads + FixedLoads(|refs|)
  {
    result, loads' := meshes, loads;
    for i := 0 to |refs|
      invariant result == meshes + MeshesAt(scene, refs[..i], zero, images)
      invariant loads' == loads + FixedLoads(i)
    {
      var m;
      m, loads' := ProcessMesh(scene.meshes[refs[i]], zero, images, loads');
      FixedLoadsAppend(loads, i, 1);
      assert refs[..i + 1] == refs[..i] + [refs[i]];
      MeshesAtAppend(scene, refs[..i], [refs[i]], zero, images);
      result := result + [m];
    }
    assert refs[..|refs|] == refs;
  }

  /** `processNode(node)`: appends to `meshes` one processed mesh per mesh
      reference of the subtree, in pre-order, and logs one texture load per
      reference. */
  method ProcessNode<T>(node: AiNode, scene: AiScene<T>, zero: T, images: string -> Option<Image>,
                        meshes: seq<Mesh<T>>, ghost loads: seq<string>)
    returns (result: seq<Mesh<T>>, ghost loads': seq<string>)
    requires MeshesValid(scene) && RefsBelow(node, |scene.meshes|)
    ensures InRange(NodeMeshRefs(node), |scene.meshes|)
    ensures result == meshes + MeshesAt(scene, NodeMeshRefs(node), zero, images)
    ensures loads' == loads + FixedLoads(|NodeMeshRefs(node)|)
    decreases node
  {
    var n := |scene.meshes|;
    result, loads' := AppendMeshes(node.meshes, scene, zero, images, meshes, loads);
    ghost var refs := node.meshes;
    assert node.children[..0] == [];
    for i := 0 to |node.children|
      invariant refs == node.meshes + ChildrenMeshRefs(node.children[..i])
      invariant InRange(refs, n)
      invariant result == meshes + MeshesAt(scene, refs, zero, images)
      invariant loads' == loads + FixedLoads(|refs|)
    {
      var child := node.children[i];
      assert RefsBelow(child, n);
      ghost var done := MeshesAt(scene, refs, zero, images);
      result, loads' := ProcessNode(child, scene, zero, images, result, loads');
      FixedLoadsAppend(loads, |refs|, |NodeMeshRefs(child)|);
      ghost var added := MeshesAt(scene, NodeMeshRefs(child), zero, images);
      assert result == meshes + (done + added);
      MeshesAtAppend(scene, refs, NodeMeshRefs(child), zero, images);
      ChildrenPrefixStep(node.children, i);
      refs := refs + NodeMeshRefs(child);
    }
    assert refs == NodeMeshRefs(node) by {
      assert node.children[..|node.children|] == node.children;
    }
  }

  // ---------------------------------------------------------------------
  // Traversal order, stated independently

  /** The nodes of a subtree in pre-order: the node, then each child subtree in child order. */
  function PreOrder(node: AiNode): (r: seq<AiNode>)
    decreases node
    ensures |r| > 0 && r[0] == node
  {
    [node] + ChildrenPreOrder(node.children)
  }

  function ChildrenPreOrder(children: seq<AiNode>): seq<AiNode>
    decreases children
  {
    if children == [] then []
    else ChildrenPreOrder(children[..|children| - 1]) + PreOrder(children[|children| - 1])
  }

  /** The nodes' own `mMeshes` lists, concatenated in order. */
  function OwnMeshes(nodes: seq<AiNode>): seq<nat>
  {
    if nodes == [] then [] else OwnMeshes(nodes[..|nodes| - 1]) + nodes[|nodes| - 1].meshes
  }

  /** The sum of `mNumMeshes` over a list of nodes. */
  function MeshCountSum(nodes: seq<AiNode>): nat
  {
    if nodes == [] then 0 else MeshCountSum(nodes[..|nodes| - 1]) + |nodes[|nodes| - 1].meshes|
  }

  /** How many of the nodes' own mesh lists' entries are `x`. */
  function RefCount(nodes: seq<AiNode>, x: nat): nat
  {
    if nodes == [] then 0 else RefCount(nodes[..|nodes| - 1], x) + multiset(nodes[|nodes| - 1].meshes)[x]
  }

  /** Concatenating node lists concatenates their own mesh lists. */
  lemma {:induction false} OwnMeshesAppend(a: seq<AiNode>, b: seq<AiNode>)
    ensures OwnMeshes(a + b) == OwnMeshes(a) + OwnMeshes(b)
  {
    if b == [] {
      assert a + b == a;
    } else {
      var b', last := b[..|b| - 1], b[|b| - 1];
      OwnMeshesAppend(a, b');
      assert OwnMeshes(a + b) == OwnMeshes(a + b') + last.meshes by {
        assert (a + b)[..|a + b| - 1] == a + b';
        assert (a + b)[|a + b| - 1] == last;
      }
      assert OwnMeshes(b) == OwnMeshes(b') + last.meshes;
    }
  }

  /** The walk emits exactly the own mesh lists of the pre-order node sequence. */
  lemma {:induction false} RefsArePreOrder(node: AiNode)
    decreases node, 1
    ensures NodeMeshRefs(node) == OwnMeshes(PreOrder(node))
  {
    ChildrenRefsArePreOrder(node.children);
    OwnMeshesAppend([node], ChildrenPreOrder(node.children));
    assert [node][..0] == [];
  }

  lemma {:induction false} ChildrenRefsArePreOrder(children: seq<AiNode>)
    decreases children, 0
    ensures ChildrenMeshRefs(children) == OwnMeshes(ChildrenPreOrder(children))
  {
    if children != [] {
      var init, last := children[..|children| - 1], children[|children| - 1];
      ChildrenRefsArePreOrder(init);
      RefsArePreOrder(last);
      OwnMeshesAppend(ChildrenPreOrder(init), PreOrder(last));
    }
  }

  lemma {:induction false} OwnMeshesCount(nodes: seq<AiNode>, x: nat)
    ensures |OwnMeshes(nodes)| == MeshCountSum(nodes)
    ensures multiset(OwnMeshes(nodes))[x] == RefCount(nodes, x)
  {
    if nodes != [] {
      OwnMeshesCount(nodes[..|nodes| - 1], x);
    }
  }

  /** No deduplication: the walk yields one entry per reference, so its
      length is the sum of `mNumMeshes` over all nodes of the tree, and a
      scene mesh appears as often as nodes reference it. */
  lemma RefsCountEveryReference(node: AiNode, x: nat)
    ensures |NodeMeshRefs(node)| == MeshCountSum(PreOrder(node))
    ensures multiset(NodeMeshRefs(node))[x] == RefCount(PreOrder(node), x)
  {
    RefsArePreOrder(node);
    OwnMeshesCount(PreOrder(node), x);
  }

  /** A mesh shared by two sibling nodes is processed twice. */
  lemma SharedMeshProcessedTwice()
    ensures NodeMeshRefs(AiNode([], [AiNode([0], []), AiNode([0], [])])) == [0, 0]
  {
    var a := AiNode([0], []);
    var children := [a, a];
    assert children[..1] == [a];
    assert children[..1][..0] == [];
  }

  /** What Assimp guarantees of a usable scene this loader reads: per-vertex
      arrays of the right size and mesh references into the mesh array. */
  predicate SceneReady<T>(scene: AiScene<T>)
    requires scene.root.Some?
  {
    MeshesValid(scene) && RefsBelow(scene.root.value, |scene.meshes|)
  }

  /** `loadModel()` given the importer's answer: nothing for an unusable
      scene, otherwise the processed meshes of the hierarchy's mesh
      references in pre-order, each with the fixed-path texture.  `loads`
      is the log of texture loads: one per returned mesh, none shared. */
  method LoadModel<T>(scene: Option<AiScene<T>>, zero: T, images: string -> Option<Image>)
    returns (meshes: seq<Mesh<T>>, ghost loads: seq<string>)
    requires Usable(scene) ==> SceneReady(scene.value)
    ensures !Usable(scene) ==> meshes == []
    ensures Usable(scene) ==>
              && InRange(NodeMeshRefs(scene.value.root.value), |scene.value.meshes|)
              && meshes == MeshesAt(scene.value, NodeMeshRefs(scene.value.root.value), zero, images)
    ensures forall k :: 0 <= k < |meshes| ==> meshes[k].textureID == LoadTexture(FixedTexturePath, images(FixedTexturePath))
    ensures loads == FixedLoads(|meshes|)
  {
    meshes, loads := [], [];
    if !Usable(scene) {
      return;
    }
    meshes, loads := ProcessNode(scene.value.root.value, scene.value, zero, images, meshes, loads);
  }
}
