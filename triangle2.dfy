/** The indexed loader of the viewer program: `loadModel` walks the scene's
    flat mesh array and builds, per mesh, an interleaved vertex buffer, an
    element buffer of face indices and a diffuse texture; `createPlane`
    supplies the index data of the ground plane.

    This loader reads `mNormals` without checking it.  Normal generation
    fills it in except for meshes made only of points and lines; the model
    asks for it (`NormalsGenerated`) rather than modelling the null read. */
module Triangle2 {
  import opened Wrappers
  import opened VertexLayout
  import opened Assimp
  import opened Textures

  /** What one loaded mesh hands to the GPU: the vertex buffer contents,
      the element buffer contents, the index count passed to
      `glDrawElements`, and the bound texture. */
  datatype Mesh<T> = Mesh(vertexBuffer: seq<T>, elementBuffer: seq<nat>, indexCount: nat, texture: Texture)

  // ---------------------------------------------------------------------
  // Vertices

  /** A mesh as this loader may read it: Assimp's array sizes, plus the
      normals array that it dereferences unchecked. */
  predicate NormalsGenerated<T>(m: AiMesh<T>)
  {
    ValidMesh(m) && m.normals.Some?
  }

  /** Vertex `j` of a mesh: its position, its normal, and its first-channel UV or zeros. */
  function SourceVertex<T>(m: AiMesh<T>, j: nat, zero: T): Vertex<T>
    requires NormalsGenerated(m) && j < |m.vertices|
  {
    Vertex(ToVec3(m.vertices[j]), ToVec3(m.normals.value[j]), FirstUv(m, j, zero))
  }

  function SourceVertices<T>(m: AiMesh<T>, zero: T): (vs: seq<Vertex<T>>)
    requires NormalsGenerated(m)
    ensures |vs| == |m.vertices|
  {
    seq(|m.vertices|, (j: int) requires 0 <= j < |m.vertices| => SourceVertex(m, j, zero))
  }

  /** The vertex loop of `loadModel`: per vertex, the position, the normal
      and the first-channel UV (or two zeros) are pushed in that order. */
  method InterleaveVertices<T>(mesh: AiMesh<T>, zero: T) returns (vertices: seq<T>)
    requires NormalsGenerated(mesh)
    ensures vertices == Encode(SourceVertices(mesh, zero))
    ensures |vertices| == Stride * |mesh.vertices|
    ensures Decode(vertices) == SourceVertices(mesh, zero)
  {
    ghost var vs := SourceVertices(mesh, zero);
    vertices := [];
    var j := 0;
    while j < |mesh.vertices|
      invariant 0 <= j <= |mesh.vertices|
      invariant vertices == Encode(vs[..j])
    {
      ghost var before := vertices;
      var p := mesh.vertices[j];
      vertices := vertices + [p.x, p.y, p.z];

      var n := mesh.normals.value[j];
      vertices := vertices + [n.x, n.y, n.z];

      if mesh.textureCoords0.Some? {
        var tc := mesh.textureCoords0.value;
        vertices := vertices + [tc[j].x, tc[j].y];
      } else {
        vertices := vertices + [zero, zero];
      }

      assert vertices == before + Pack(vs[j]) by {
        assert vs[j] == Vertex(ToVec3(p), ToVec3(n), FirstUv(mesh, j, zero));
      }
      EncodePrefixStep(vs, j);
      j := j + 1;
    }
    assert vertices == Encode(vs) by {
      assert vs[..j] == vs;
    }
    DecodeEncode(vs);
  }

  /** Slots 8j..8j+2 are the position of vertex j, 8j+3..8j+5 its normal and
      8j+6..8j+7 its first-channel UV, which are zeros when the mesh has no
      texture coordinates. */
  lemma InterleavedSlots<T>(m: AiMesh<T>, zero: T, j: nat)
    requires NormalsGenerated(m) && j < |m.vertices|
    ensures |Encode(SourceVertices(m, zero))| == Stride * |m.vertices|
    ensures var buf, b := Encode(SourceVertices(m, zero)), Stride * j;
              && buf[b] == m.vertices[j].x && buf[b + 1] == m.vertices[j].y && buf[b + 2] == m.vertices[j].z
              && buf[b + 3] == m.normals.value[j].x && buf[b + 4] == m.normals.value[j].y
              && buf[b + 5] == m.normals.value[j].z
              && (m.textureCoords0.Some? ==>
                    buf[b + 6] == m.textureCoords0.value[j].x && buf[b + 7] == m.textureCoords0.value[j].y)
              && (m.textureCoords0.None? ==> buf[b + 6] == zero && buf[b + 7] == zero)
  {
    EncodeSlots(SourceVertices(m, zero), j);
  }

  // ---------------------------------------------------------------------
  // Indices

  /** The index lists of the faces, concatenated in face order. */
  function Flatten(faces: seq<AiFace>): seq<nat>
  {
    if faces == [] then [] else Flatten(faces[..|faces| - 1]) + faces[|faces| - 1].indices
  }

  /** Total number of indices over all faces. */
  function IndexTotal(faces: seq<AiFace>): nat
  {
    if faces == [] then 0 else IndexTotal(faces[..|faces| - 1]) + |faces[|faces| - 1].indices|
  }

  /** The index loop of `loadModel`: one push per index of every face. */
  method FlattenIndices(faces: seq<AiFace>) returns (indices: seq<nat>)
    ensures indices == Flatten(faces)
  {
    indices := [];
    var j := 0;
    while j < |faces|
      invariant 0 <= j <= |faces|
      invariant indices == Flatten(faces[..j])
    {
      var face := faces[j];
      var k := 0;
      while k < |face.indices|
        invariant 0 <= k <= |face.indices|
        invariant indices == Flatten(faces[..j]) + face.indices[..k]
      {
        indices := indices + [face.indices[k]];
        assert face.indices[..k + 1] == face.indices[..k] + [face.indices[k]];
        k := k + 1;
      }
      assert faces[..j + 1][..j] == faces[..j];
      assert face.indices[..k] == face.indices;
      j := j + 1;
    }
    assert faces[..j] == faces;
  }

  /** Flattening respects concatenation of face lists: face order is kept. */
  lemma {:induction false} FlattenAppend(a: seq<AiFace>, b: seq<AiFace>)
    ensures Flatten(a + b) == Flatten(a) + Flatten(b)
  {
    if b == [] {
      assert a + b == a;
    } else {
      var b', last := b[..|b| - 1], b[|b| - 1];
      FlattenAppend(a, b');
      assert Flatten(a + b) == Flatten(a + b') + last.indices by {
        assert (a + b)[..|a + b| - 1] == a + b';
        assert (a + b)[|a + b| - 1] == last;
      }
      assert Flatten(b) == Flatten(b') + last.indices;
    }
  }

  /** The index count equals the total number of face indices. */
  lemma {:induction false} FlattenLength(faces: seq<AiFace>)
    ensures |Flatten(faces)| == IndexTotal(faces)
  {
    if faces != [] {
      FlattenLength(faces[..|faces| - 1]);
    }
  }

  predicate AllTriangles(faces: seq<AiFace>)
  {
    forall f :: 0 <= f < |faces| ==> |faces[f].indices| == 3
  }

  /** After triangulation there are 3 indices per face, and index 3f+k is
      corner k of face f. */
  lemma {:induction false} TrianglesFlatten(faces: seq<AiFace>)
    requires AllTriangles(faces)
    ensures |Flatten(faces)| == 3 * |faces|
    ensures forall f, k :: 0 <= f < |faces| && 0 <= k < 3 ==> Flatten(faces)[3 * f + k] == faces[f].indices[k]
  {
    if faces != [] {
      var init := faces[..|faces| - 1];
      assert AllTriangles(init) by {
        forall f | 0 <= f < |init| ensures |init[f].indices| == 3 {
          assert init[f] == faces[f];
        }
      }
      TrianglesFlatten(init);
    }
  }

  /** Indices that are all below the vertex count stay below it after flattening. */
  lemma {:induction false} FlattenInRange(faces: seq<AiFace>, vertexCount: nat)
    requires forall f, k :: 0 <= f < |faces| && 0 <= k < |faces[f].indices| ==> faces[f].indices[k] < vertexCount
    ensures forall i :: 0 <= i < |Flatten(faces)| ==> Flatten(faces)[i] < vertexCount
  {
    if faces != [] {
      var init := faces[..|faces| - 1];
      forall f, k | 0 <= f < |init| && 0 <= k < |init[f].indices|
        ensures init[f].indices[k] < vertexCount
      {
        assert init[f] == faces[f];
      }
      FlattenInRange(init, vertexCount);
    }
  }

  // ---------------------------------------------------------------------
  // Texture paths

  /** `std::string::find_last_of(c)`; `None` stands for `npos`. */
  function FindLastOf(s: string, c: char): (r: Option<nat>)
    ensures r.None? <==> c !in s
    ensures r.Some? ==> r.value < |s| && s[r.value] == c && c !in s[r.value + 1..]
  {
    if s == [] then None
    else if s[|s| - 1] == c then Some(|s| - 1)
    else
      var r := FindLastOf(s[..|s| - 1], c);
      assert r.Some? ==> s[r.value + 1..] == s[..|s| - 1][r.value + 1..] + [s[|s| - 1]];
      r
  }

  /** `path.substr(0, path.find_last_of('/')) + "/"`: the path up to and
      including its last '/', or the whole path followed by '/' when it has
      none (`substr(0, npos)` keeps the whole string). */
  function ModelDirectory(path: string): (d: string)
    ensures |d| > 0 && d[|d| - 1] == '/'
    ensures '/' !in path ==> d == path + "/"
    ensures '/' in path ==> |d| <= |path| && d == path[..|d|] && '/' !in path[|d|..]
  {
    match FindLastOf(path, '/')
    case None => path + "/"
    case Some(i) =>
      assert path[..i] + "/" == path[..i + 1];
      path[..i] + "/"
  }

  /** `directory + str.C_Str()`. */
  function TexturePath(path: string, name: string): string
  {
    ModelDirectory(path) + name
  }

  /** For a model file `dir/file`, textures are looked up as `dir/name`. */
  lemma TextureBesideModel(dir: string, file: string, name: string)
    requires '/' !in file
    ensures ModelDirectory(dir + "/" + file) == dir + "/"
    ensures TexturePath(dir + "/" + file, name) == dir + "/" + name
  {
    var path := dir + "/" + file;
    assert path[|dir|] == '/';
    assert path[|dir| + 1..] == file;
    assert path[..|dir| + 1] == dir + "/";
  }

  /** The texture of a mesh whose material is `material`: the diffuse
      texture loaded from beside the model, or the white texel. */
  function MaterialTexture(material: AiMaterial, directory: string, images: string -> Option<Image>): (t: Texture)
    ensures material.diffuse.None? ==> t == WhiteTexture() && t.path.None?
    ensures material.diffuse.Some? ==>
              var texturePath := directory + material.diffuse.value;
              && t == LoadTexture(texturePath, images(texturePath))
              && t.path == Some(texturePath)
              && (t.storage.None? <==> images(texturePath).None?)
  {
    match material.diffuse
    case Some(name) => LoadTexture(directory + name, images(directory + name))
    case None => WhiteTexture()
  }

  // ---------------------------------------------------------------------
  // Meshes

  /** What this loader reads unchecked in a usable scene: every mesh has its
      arrays, a normals array and an existing material. */
  predicate SceneReady<T>(scene: AiScene<T>)
  {
    forall i :: 0 <= i < |scene.meshes| ==>
      NormalsGenerated(scene.meshes[i]) && scene.meshes[i].materialIndex < |scene.materials|
  }

  /** The mesh `loadModel` builds for scene mesh `i`. */
  function MeshFor<T>(scene: AiScene<T>, i: nat, directory: string, zero: T,
                      images: string -> Option<Image>): Mesh<T>
    requires SceneReady(scene) && i < |scene.meshes|
  {
    var m := scene.meshes[i];
    var indices := Flatten(m.faces);
    Mesh(Encode(SourceVertices(m, zero)), indices, |indices|,
         MaterialTexture(scene.materials[m.materialIndex], directory, images))
  }

  /** What every built mesh satisfies: 8 slots per source vertex that decode
      back to the source attributes, the faces' indices in order with their
      count, and the diffuse texture from beside the model or else the white
      texel. */
  lemma MeshForFacts<T>(scene: AiScene<T>, i: nat, path: string, zero: T,
                        images: string -> Option<Image>)
    requires SceneReady(scene) && i < |scene.meshes|
    ensures var m, r := scene.meshes[i], MeshFor(scene, i, ModelDirectory(path), zero, images);
              && |r.vertexBuffer| == Stride * |m.vertices|
              && Decode(r.vertexBuffer) == SourceVertices(m, zero)
              && r.elementBuffer == Flatten(m.faces)
              && r.indexCount == |r.elementBuffer| == IndexTotal(m.faces)
              && (AllTriangles(m.faces) ==> r.indexCount == 3 * |m.faces|)
              && var material := scene.materials[m.materialIndex];
                 (material.diffuse.None? ==> r.texture == WhiteTexture())
                 && (material.diffuse.Some? ==>
                       var texturePath := TexturePath(path, material.diffuse.value);
                       r.texture == LoadTexture(texturePath, images(texturePath)))
  {
    var m := scene.meshes[i];
    DecodeEncode(SourceVertices(m, zero));
    FlattenLength(m.faces);
    if AllTriangles(m.faces) {
      TrianglesFlatten(m.faces);
    }
  }

  /** The body of `loadModel`'s mesh loop for scene mesh `i`: vertices,
      indices, index count and texture. */
  method BuildMesh<T>(scene: AiScene<T>, i: nat, directory: string, zero: T,
                      images: string -> Option<Image>) returns (m: Mesh<T>)
    requires SceneReady(scene) && i < |scene.meshes|
    ensures m == MeshFor(scene, i, directory, zero, images)
  {
    var mesh := scene.meshes[i];
    var vertices := InterleaveVertices(mesh, zero);
    var indices := FlattenIndices(mesh.faces);

    // `mMaterialIndex >= 0` holds for every unsigned index.
    var material := scene.materials[mesh.materialIndex];
    var texture;
    if material.diffuse.Some? {
      var texturePath := directory + material.diffuse.value;
      texture := LoadTexture(texturePath, images(texturePath));
    } else {
      texture := WhiteTexture();
    }

    m := Mesh(vertices, indices, |indices|, texture);
  }

  /** `loadModel(path)` given the importer's answer `scene` and the image
      decoder `images`: nothing for an unusable scene, otherwise one mesh per
      scene mesh, in array order. */
  method LoadModel<T>(path: string, scene: Option<AiScene<T>>, zero: T,
                      images: string -> Option<Image>) returns (meshes: seq<Mesh<T>>)
    requires Usable(scene) ==> SceneReady(scene.value)
    ensures !Usable(scene) ==> meshes == []
    ensures Usable(scene) ==> |meshes| == |scene.value.meshes|
    ensures Usable(scene) ==> forall i :: 0 <= i < |meshes| ==>
              meshes[i] == MeshFor(scene.value, i, ModelDirectory(path), zero, images)
  {
    meshes := [];
    if !Usable(scene) {
      return;
    }
    var s := scene.value;
    var directory := ModelDirectory(path);

    var i := 0;
    while i < |s.meshes|
      invariant 0 <= i <= |s.meshes|
      invariant |meshes| == i
      invariant forall k :: 0 <= k < i ==> meshes[k] == MeshFor(s, k, directory, zero, images)
    {
      var m := BuildMesh(s, i, directory, zero, images);
      meshes := meshes + [m];
      i := i + 1;
    }
  }

  // ---------------------------------------------------------------------
  // Ground plane

  /** Vertices of the ground plane quad. */
  const PlaneVertexCount: nat := 4
  /** `plane.indexCount`. */
  const PlaneIndexCount: nat := 6

  /** The plane's index data: the quad as two triangles. */
  function PlaneIndices(): (r: seq<nat>)
    ensures |r| == PlaneIndexCount
    ensures forall i :: 0 <= i < |r| ==> r[i] < PlaneVertexCount
  {
    [0, 1, 2, 0, 2, 3]
  }

  /** The plane's index data is the flattening of the triangles (0,1,2) and
      (0,2,3), which together use every corner of the quad. */
  lemma PlaneIsTwoTriangles()
    ensures PlaneIndices() == Flatten([AiFace([0, 1, 2]), AiFace([0, 2, 3])])
    ensures forall v :: 0 <= v < PlaneVertexCount ==> v in PlaneIndices()
  {
    var faces := [AiFace([0, 1, 2]), AiFace([0, 2, 3])];
    assert faces[..1][..0] == [];
    assert faces[..1] == [AiFace([0, 1, 2])];
    assert PlaneIndices()[3] == 0;
  }
}
