# Mesh loading of a minimal OpenGL model viewer, in Dafny

The viewer imports a model with Assimp and turns every mesh into GPU-ready
data before rendering it. This project models that CPU-side packing. Two
loaders do it in slightly different ways:

- `Triangle2.cpp` is the indexed loader. Its `loadModel` walks the scene's
  flat mesh array. For each mesh it builds an interleaved vertex buffer, an
  element buffer (the faces' indices) and an index count. It then picks a
  texture: the material's diffuse texture, looked up in the model's
  directory, or a 1x1 white texel when there is none. Its `createPlane`
  supplies the ground plane's index data.
- `AssimpModel.h` is the non-indexed loader. Its `loadModel` walks the node
  hierarchy depth-first. For each mesh reference, `processMesh` builds an
  interleaved vertex buffer and loads a texture from a fixed path. The
  `Mesh` constructor counts the vertices as the buffer size divided by 8.

Both loaders use the same vertex layout: position (3 floats), then normal
(3), then the first UV channel (2), with a stride of 8. Both carry an identical
copy of `loadTexture`, which picks the pixel format from the image's channel count.
Both return an empty list when the importer gives back no scene, an
incomplete scene or a scene without a root node.

Modules:

- `Wrappers`: `Option`.
- `VertexLayout`: the 8-slot layout and the attribute table. It defines the
  encoder (`Encode`, one `Pack` per vertex) and the decoder (`Decode`, which
  reads stride 8 at offsets 0/3/6). Both round trips are proved.
- `Assimp`: the importer's `aiScene`, `aiMesh`, `aiFace`, `aiNode` and
  `aiMaterial` as plain input datatypes. It also defines the "usable scene"
  guard.
- `Textures`: `loadTexture`, the format choice and the white fallback texel.
- `Triangle2`: the indexed loader and the plane's index data.
- `AssimpModel`: `processMesh`, the `Mesh` constructor, `processNode` and
  `loadModel`.

Conventions of the model:

- Float values are only copied, never computed on. They are a type
  parameter `T`, and the literal `0.0f` of the fallbacks is a parameter
  `zero: T`.
- A null pointer (`scene`, `mNormals`, `mTextureCoords[0]`, `mRootNode`) is
  `None`.
- `find_last_of` returning `npos` is `None`. `substr(0, npos)` keeps the
  whole string.
- The image decoder is a parameter `images: string -> Option<Image>`. It
  gives the decoded image for a path, or `None` when decoding fails.
- A mesh records what it hands to the GPU: buffer contents, counts and a
  `Texture` value. It does not record GL object names.
- The loops that push into `std::vector`s are `while`/`for` loops that
  append to a sequence. Each such method is proved equal to a
  specification function.
- `processNode` appends to a vector captured by reference. It is a
  recursive method that takes the list built so far and returns it
  extended.
- `Mesh` values are immutable after they are built, so they are datatypes.
- Source behaviour that the model keeps:
  - The indexed loader reads `mNormals` without checking it. Its requires
    (`NormalsGenerated`) asks for the normals array. "## Left out" names
    the meshes for which this is not a guarantee.
  - `aiMesh::HasNormals()` is modelled as Assimp defines it: normals present
    and at least one vertex.
  - The guard `mMaterialIndex >= 0` always holds for an unsigned index, so the
    texture is always assigned.
  - A channel count other than 1, 3 or 4 leaves the format variable
    uninitialised in the source. Here it is the explicit value `None`.

## Model

| member | source | states |
|---|---|---|
| VertexLayout.AttributesTileStride | Triangle2.cpp:152-158 | The three attributes (locations 0, 1, 2) sit at float offsets 0, 3, 6 with 3, 3, 2 components, matching the offset constants the decoder reads. They tile the stride of 8 floats without gap or overlap. In bytes: stride 32, offsets 0, 12, 24. |
| VertexLayout.Pack | Triangle2.cpp:105-122 | One vertex is 8 slots. Slots 0-2 are the position's x, y, z, slots 3-5 the normal's x, y, z, slots 6-7 the UV's u, v: the push order matches the attribute offsets 0/3/6. |
| VertexLayout.EncodeLength | Triangle2.cpp:102-123 | The encoded array has exactly 8 entries per vertex. |
| VertexLayout.EncodeAt | Triangle2.cpp:103-123 | Slot 8j+k of the encoded array is slot k of vertex j. |
| VertexLayout.EncodeSlots | Triangle2.cpp:103-123 | Slots 8j..8j+2 are vertex j's position, 8j+3..8j+5 its normal, 8j+6..8j+7 its UV. |
| VertexLayout.Decode | Triangle2.cpp:152-158 | Reading with stride 8 and offsets 0/3/6 gives one vertex per stride. Vertex j is read from slots 8j..8j+7. |
| VertexLayout.DecodeEncode | Triangle2.cpp:152-158 | Decoding an encoded array gives back every vertex (position, normal, UV). |
| VertexLayout.EncodeDecode | Triangle2.cpp:152-158 | Any array of whole strides encodes back from its decoding, so the layout loses no slot. |
| Textures.FormatFor | Triangle2.cpp:38-44 | A format is chosen exactly when the count is 1, 3 or 4, and the chosen format has that many channels (RED, RGB, RGBA). Any other count gives no format. |
| Textures.FormatRoundTrip | AssimpModel.h:53-59 | Each format is chosen for its own channel count and for no other count. |
| Textures.LoadTexture | Triangle2.cpp:31-62 | The texture records its path. Its storage is absent exactly when decoding failed. Otherwise the storage has the format chosen from the channel count, the image's size and pixels, and repeat/trilinear sampling. |
| Textures.WhiteTextureIsOpaqueWhite | Triangle2.cpp:171-177 | The fallback has no file path. Its storage is 1x1 RGBA with GL default sampling: exactly width*height*channels bytes, all 255. |
| Triangle2.InterleaveVertices | Triangle2.cpp:102-123 | The vertex loop yields exactly 8 * mNumVertices floats. They are the encoding of the source vertices, and decoding them gives back every position, normal and UV (zeros when there is no UV channel). |
| Triangle2.InterleavedSlots | Triangle2.cpp:103-123 | Slots 8j..8j+2 are position j and 8j+3..8j+5 are normal j. Slots 8j+6..8j+7 are the first-channel UV j, or two zeros when `mTextureCoords[0]` is null. |
| Triangle2.FlattenIndices | Triangle2.cpp:126-132 | The nested index loop yields the in-order concatenation of the faces' index lists. |
| Triangle2.FlattenAppend | Triangle2.cpp:127-132 | Flattening two face lists one after the other gives the two flattenings one after the other, so face order is kept. |
| Triangle2.FlattenLength | Triangle2.cpp:126-136 | The index count equals the total number of indices over all faces. |
| Triangle2.TrianglesFlatten | Triangle2.cpp:126-136 | When every face is a triangle there are 3 * mNumFaces indices, and index 3f+k is corner k of face f. |
| Triangle2.FlattenInRange | Triangle2.cpp:126-132 | When every face index is below the vertex count, so is every flattened index. |
| Triangle2.FindLastOf | Triangle2.cpp:96 | No result exactly when the character does not occur. Otherwise the result is a position of the character with no later occurrence. |
| Triangle2.ModelDirectory | Triangle2.cpp:96 | The directory ends in '/'. With no '/' in the path it is path + "/". Otherwise it is the path's prefix up to and including a '/' after which the path has no '/'. |
| Triangle2.TextureBesideModel | Triangle2.cpp:96-168 | For a model `dir/file` the directory is `dir/`, and the texture path of name n is `dir/n`. |
| Triangle2.MaterialTexture | Triangle2.cpp:161-179 | Without a diffuse texture the mesh gets the white texel, which has no path. With one, the texture is `loadTexture` of the image decoded from directory + name: its path is that path, and it has no storage exactly when that file fails to decode. |
| Triangle2.MeshForFacts | Triangle2.cpp:98-181 | A built mesh has 8 slots per source vertex, and they decode to the source vertices. Its element buffer is the flattened faces and its index count is their total, 3 * mNumFaces for triangles. Its texture is the white texel without a diffuse slot, else `loadTexture` of the image decoded from directory + name. |
| Triangle2.BuildMesh | Triangle2.cpp:98-181 | One pass of the mesh loop (vertex loop, index loop, `indexCount = indices.size()`, the always-true material guard and the texture choice) builds exactly `MeshFor` of that scene mesh, whose properties `MeshForFacts` states. |
| Triangle2.LoadModel | Triangle2.cpp:85-185 | An unusable scene (none, incomplete flag set, or no root) gives an empty list. Otherwise there is exactly one mesh per scene mesh, in array order, each built as described above. |
| Triangle2.PlaneIndices | Triangle2.cpp:198-203 | The plane has 6 indices (its indexCount), each below its 4 vertices. |
| Triangle2.PlaneIsTwoTriangles | Triangle2.cpp:198-201 | The plane's index data flattens the triangles (0,1,2) and (0,2,3) and uses every corner of the quad. |
| AssimpModel.NewMesh | AssimpModel.h:21-44 | The constructor keeps the vertices and the texture as given. vertexCount is the number of whole strides: 8*vertexCount <= size < 8*(vertexCount+1). |
| AssimpModel.InterleaveWithFallback | AssimpModel.h:90-106 | The vertex loop yields exactly 8 * mNumVertices floats. They encode the vertices with normal or zeros and UV or zeros, and decode back to them. |
| AssimpModel.FallbackSlots | AssimpModel.h:91-106 | Normal slots hold the source normal when HasNormals() holds, else three zeros. UV slots hold the first-channel UV when it exists, else two zeros. Position slots always hold the position. |
| AssimpModel.ProcessMesh | AssimpModel.h:89-111 | The returned mesh has vertexCount = mNumVertices and the texture loaded from the fixed path. The load log grows by exactly one request for that path. |
| AssimpModel.VertexCountOfEncoded | AssimpModel.h:42 | For any buffer built from whole vertices, size / 8 is the number of vertices. |
| AssimpModel.FallbackAgreesWithGenerated | AssimpModel.h:95-97 | For a mesh with normals, this loader emits exactly the vertices of the indexed loader. |
| AssimpModel.AppendMeshes | AssimpModel.h:114-117 | A node's own loop appends one processed mesh per entry of `mMeshes`, in order, and logs one texture load per entry. |
| AssimpModel.ProcessNode | AssimpModel.h:113-121 | Every reference in the subtree is in range. The walk appends the processed meshes of the pre-order reference list: the node's own meshes first, then each child's output in child order. It logs one fixed-path texture load per reference. |
| AssimpModel.RefsArePreOrder | AssimpModel.h:113-123 | The reference list is the concatenation of the `mMeshes` lists of the subtree's nodes in pre-order (each node, then its children in order). |
| AssimpModel.RefsCountEveryReference | AssimpModel.h:114-116 | The result has one entry per reference: its length is the sum of mNumMeshes over all nodes. A scene mesh occurs as often as nodes reference it. |
| AssimpModel.SharedMeshProcessedTwice | AssimpModel.h:114-116 | Mesh 0 referenced by two sibling nodes is listed twice. |
| AssimpModel.LoadModel | AssimpModel.h:79-125 | An unusable scene gives an empty list and no texture load. Otherwise the result is the processed mesh of every pre-order reference from the root. Every mesh's texture is the load of the fixed path, and the load log holds exactly one fixed-path request per returned mesh, so no load is shared. |

## Left out

- OpenGL calls are not modelled: object creation, uploads, attribute enabling, draws and deletes are foreign side effects. A mesh keeps its buffer contents and a `Texture` value instead of GL names. The attribute layout survives only as constants (`VertexLayout.Attributes`).
- Assimp's file parsing and its post-processing (triangulation, UV flipping, normal generation) are not modelled. The importer's answer is an input. Triangulation shows up only as the `AllTriangles` hypothesis, and normal generation as the `NormalsGenerated` precondition.
- SOIL image decoding is an input (`images`). The console messages on import or decode failure are output and are left out.
- GLFW windowing, the render loop and `main` are left out, and so are `processInput`'s float rotation updates (float accumulation on global state).
- glm matrix construction is left out: it is floating-point numerics.
- The plane's vertex coordinates (`±width/2`, `±height/2`) are float arithmetic and are left out. Only the plane's index data and index count are modelled.
- `shader_s.h` is not part of this model.
- Triangle2.LoadModel: counts are unbounded. `indexCount = indices.size()` would truncate to 32 bits only for meshes with 2^32 or more indices.
- AssimpModel.NewMesh: `vertices.size() / 8` is not truncated to 32 bits.
- Both loaders read `scene->mMeshes[...]` without bounds checks, and the indexed loader also reads `scene->mMaterials[mMaterialIndex]` unchecked. The non-indexed loader never reads `mMaterials`: it always loads the fixed path. The requires clauses (`SceneReady`, `ValidMesh`) state Assimp's guarantees that those indices and array sizes are valid.
- Triangle2.InterleaveVertices: the null `mNormals` read is not modelled. `aiProcess_GenNormals` skips meshes made only of points or lines, and triangulation leaves such meshes unchanged, so for them `mNormals` stays null and the source dereferences it. The `NormalsGenerated` precondition excludes those meshes instead of modelling the crash, and `Triangle2.BuildMesh`, `Triangle2.MeshForFacts` and `Triangle2.LoadModel` inherit it.
- AssimpModel.LoadModel: a texture has no identity in the model. One load per mesh is stated through a ghost log of load requests kept beside each `loadTexture` call, not through distinct GL texture names.
