/** The imported scene as both loaders read it: Assimp's `aiScene`,
    `aiMesh`, `aiFace`, `aiNode` and `aiMaterial`, reduced to the fields the
    loaders touch.  A null pointer is `None`; an array of `mNumX` entries is
    a sequence of that length. */
module Assimp {
  import opened Wrappers
  import opened VertexLayout

  datatype AiVector3D<T> = AiVector3D(x: T, y: T, z: T)

  /** One face: its vertex indices (`mNumIndices` of them). */
  datatype AiFace = AiFace(indices: seq<nat>)

  /** One mesh.  `normals` is `mNormals` and `textureCoords0` is
      `mTextureCoords[0]`; either may be a null pointer.  Texture coordinates
      are three-component vectors of which the loaders use `x` and `y`. */
  datatype AiMesh<T> = AiMesh(
    vertices: seq<AiVector3D<T>>,
    normals: Option<seq<AiVector3D<T>>>,
    textureCoords0: Option<seq<AiVector3D<T>>>,
    faces: seq<AiFace>,
    materialIndex: nat)

  /** A material, reduced to the answer of
      `GetTexture(aiTextureType_DIFFUSE, 0, &str)`: the texture name on
      `AI_SUCCESS`, `None` otherwise. */
  datatype AiMaterial = AiMaterial(diffuse: Option<string>)

  /** A node of the scene hierarchy: indices into the scene's mesh array
      (`mMeshes`) and the child nodes (`mChildren`). */
  datatype AiNode = AiNode(meshes: seq<nat>, children: seq<AiNode>)

  datatype AiScene<T> = AiScene(
    flags: bv32,
    meshes: seq<AiMesh<T>>,
    materials: seq<AiMaterial>,
    root: Option<AiNode>)

  /** `AI_SCENE_FLAGS_INCOMPLETE`. */
  const SceneFlagsIncomplete: bv32 := 0x1

  /** The guard both loaders apply to the importer's answer: a scene exists,
      its incomplete flag is clear and it has a root node. */
  predicate Usable<T>(scene: Option<AiScene<T>>)
  {
    scene.Some? && scene.value.flags & SceneFlagsIncomplete == 0 && scene.value.root.Some?
  }

  /** What Assimp guarantees of a mesh it hands out: every per-vertex array
      that exists has `mNumVertices` entries. */
  predicate ValidMesh<T>(m: AiMesh<T>)
  {
    && (m.normals.Some? ==> |m.normals.value| == |m.vertices|)
    && (m.textureCoords0.Some? ==> |m.textureCoords0.value| == |m.vertices|)
  }

  /** `aiMesh::HasNormals()`: the normal array exists and the mesh has vertices. */
  predicate HasNormals<T>(m: AiMesh<T>)
  {
    m.normals.Some? && |m.vertices| > 0
  }

  /** An importer vector as a layout vector, component by component. */
  function ToVec3<T>(a: AiVector3D<T>): Vec3<T>
  {
    Vec3(a.x, a.y, a.z)
  }

  /** The UV pair both loaders emit for vertex `j`: `x` and `y` of the first
      texture coordinate channel when it exists, two zeros otherwise. */
  function FirstUv<T>(m: AiMesh<T>, j: nat, zero: T): Vec2<T>
    requires ValidMesh(m) && j < |m.vertices|
  {
    match m.textureCoords0
    case Some(tc) => Vec2(tc[j].x, tc[j].y)
    case None => Vec2(zero, zero)
  }
}
