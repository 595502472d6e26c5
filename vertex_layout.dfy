/** The interleaved vertex layout shared by both mesh loaders.

    Every vertex occupies `Stride` consecutive float slots: the position,
    then the normal, then the first texture coordinate pair.  The three
    `glVertexAttribPointer` calls of the loaders describe the same layout
    (attribute locations 0, 1, 2 at float offsets 0, 3, 6, stride 8), so the
    decoder below reads back exactly what the GPU is told to read. */
module VertexLayout {

  /** Number of float slots per vertex. */
  const Stride: nat := 8
  /** Float offsets of the three attributes inside one vertex. */
  const PositionOffset: nat := 0
  const NormalOffset: nat := 3
  const UvOffset: nat := 6
  /** sizeof(float) in bytes, used to turn float offsets into byte offsets. */
  const FloatSize: nat := 4

  datatype Vec3<T> = Vec3(x: T, y: T, z: T)
  datatype Vec2<T> = Vec2(u: T, v: T)

  /** One vertex as the shader sees it. */
  datatype Vertex<T> = Vertex(position: Vec3<T>, normal: Vec3<T>, uv: Vec2<T>)

  /** One `glVertexAttribPointer` declaration: location, component count
      and offset, both counted in floats. */
  datatype Attribute = Attribute(location: nat, components: nat, offset: nat)

  /** The attribute table both loaders declare. */
  function Attributes(): seq<Attribute>
  {
    [Attribute(0, 3, PositionOffset), Attribute(1, 3, NormalOffset), Attribute(2, 2, UvOffset)]
  }

  /** The attributes tile one vertex without gap or overlap, and in bytes
      the stride is 32 with offsets 0, 12 and 24. */
  lemma AttributesTileStride()
    ensures |Attributes()| == 3
    ensures forall i :: 0 <= i < 3 ==>
              && Attributes()[i].offset == [PositionOffset, NormalOffset, UvOffset][i]
              && Attributes()[i].components == [3, 3, 2][i]
    ensures Attributes()[0].offset == 0
    ensures forall i :: 0 <= i < |Attributes()| - 1 ==>
              Attributes()[i].offset + Attributes()[i].components == Attributes()[i + 1].offset
    ensures Attributes()[2].offset + Attributes()[2].components == Stride
    ensures forall i :: 0 <= i < |Attributes()| ==> Attributes()[i].location == i
    ensures Stride * FloatSize == 32
    ensures PositionOffset * FloatSize == 0 && NormalOffset * FloatSize == 12 && UvOffset * FloatSize == 24
  {
  }

  /** The slots of one vertex in push order. */
  function Pack<T>(v: Vertex<T>): (r: seq<T>)
    ensures |r| == Stride
    ensures r[PositionOffset] == v.position.x && r[PositionOffset + 1] == v.position.y
            && r[PositionOffset + 2] == v.position.z
    ensures r[NormalOffset] == v.normal.x && r[NormalOffset + 1] == v.normal.y && r[NormalOffset + 2] == v.normal.z
    ensures r[UvOffset] == v.uv.u && r[UvOffset + 1] == v.uv.v
  {
    [v.position.x, v.position.y, v.position.z,
     v.normal.x, v.normal.y, v.normal.z,
     v.uv.u, v.uv.v]
  }

  /** The float array obtained by appending the slots of every vertex in order. */
  function Encode<T>(vs: seq<Vertex<T>>): seq<T>
  {
    if vs == [] then [] else Encode(vs[..|vs| - 1]) + Pack(vs[|vs| - 1])
  }

  lemma {:induction false} EncodeLength<T>(vs: seq<Vertex<T>>)
    ensures |Encode(vs)| == Stride * |vs|
  {
    if vs != [] {
      EncodeLength(vs[..|vs| - 1]);
    }
  }

  /** Slot `k` of vertex `j` in the encoded array is slot `k` of `Pack(vs[j])`. */
  lemma {:induction false} EncodeAt<T>(vs: seq<Vertex<T>>, j: nat, k: nat)
    requires j < |vs| && k < Stride
    ensures |Encode(vs)| == Stride * |vs|
    ensures Encode(vs)[Stride * j + k] == Pack(vs[j])[k]
  {
    EncodeLength(vs);
    var init := vs[..|vs| - 1];
    EncodeLength(init);
    if j < |vs| - 1 {
      EncodeAt(init, j, k);
    }
  }

  /** The eight slots of vertex `j`, attribute by attribute. */
  lemma EncodeSlots<T>(vs: seq<Vertex<T>>, j: nat)
    requires j < |vs|
    ensures |Encode(vs)| == Stride * |vs|
    ensures var buf, b := Encode(vs), Stride * j;
              && buf[b + PositionOffset] == vs[j].position.x
              && buf[b + PositionOffset + 1] == vs[j].position.y
              && buf[b + PositionOffset + 2] == vs[j].position.z
              && buf[b + NormalOffset] == vs[j].normal.x
              && buf[b + NormalOffset + 1] == vs[j].normal.y
              && buf[b + NormalOffset + 2] == vs[j].normal.z
              && buf[b + UvOffset] == vs[j].uv.u
              && buf[b + UvOffset + 1] == vs[j].uv.v
  {
    EncodeLength(vs);
    forall k | 0 <= k < Stride
      ensures Encode(vs)[Stride * j + k] == Pack(vs[j])[k]
    {
      EncodeAt(vs, j, k);
    }
  }

  /** Appending one vertex appends its slots. */
  lemma EncodeSnoc<T>(vs: seq<Vertex<T>>, v: Vertex<T>)
    ensures Encode(vs + [v]) == Encode(vs) + Pack(v)
  {
    assert (vs + [v])[..|vs + [v]| - 1] == vs;
  }

  /** The encoding of the first j+1 vertices extends that of the first j by vertex j's slots. */
  lemma EncodePrefixStep<T>(vs: seq<Vertex<T>>, j: nat)
    requires j < |vs|
    ensures Encode(vs[..j + 1]) == Encode(vs[..j]) + Pack(vs[j])
  {
    assert vs[..j + 1][..j] == vs[..j];
  }

  /** Reads vertex `j` back with the attribute offsets and the stride. */
  function VertexAt<T>(buf: seq<T>, j: nat): Vertex<T>
    requires Stride * (j + 1) <= |buf|
  {
    var b := Stride * j;
    Vertex(Vec3(buf[b + PositionOffset], buf[b + PositionOffset + 1], buf[b + PositionOffset + 2]),
           Vec3(buf[b + NormalOffset], buf[b + NormalOffset + 1], buf[b + NormalOffset + 2]),
           Vec2(buf[b + UvOffset], buf[b + UvOffset + 1]))
  }

  /** Splits a whole number of strides into vertices. */
  function Decode<T>(buf: seq<T>): (vs: seq<Vertex<T>>)
    requires |buf| % Stride == 0
    ensures Stride * |vs| == |buf|
    ensures forall j :: 0 <= j < |vs| ==> vs[j] == VertexAt(buf, j)
  {
    seq(|buf| / Stride, (j: int) requires 0 <= j < |buf| / Stride => VertexAt(buf, j))
  }

  /** Decoding the encoded array gives back every vertex: position, normal and UV. */
  lemma DecodeEncode<T>(vs: seq<Vertex<T>>)
    ensures |Encode(vs)| == Stride * |vs|
    ensures Decode(Encode(vs)) == vs
  {
    EncodeLength(vs);
    forall j | 0 <= j < |vs|
      ensures VertexAt(Encode(vs), j) == vs[j]
    {
      EncodeSlots(vs, j);
    }
  }

  /** Dropping the last stride of an array drops its last decoded vertex. */
  lemma DecodeDropLast<T>(buf: seq<T>)
    requires |buf| % Stride == 0 && buf != []
    ensures |buf[..|buf| - Stride]| % Stride == 0
    ensures Decode(buf[..|buf| - Stride]) == Decode(buf)[..|Decode(buf)| - 1]
  {
    var init := buf[..|buf| - Stride];
    forall j | 0 <= j < |Decode(buf)| - 1
      ensures VertexAt(init, j) == VertexAt(buf, j)
    {
    }
  }

  /** The slots of the last decoded vertex are the array's last stride. */
  lemma PackLast<T>(buf: seq<T>)
    requires |buf| % Stride == 0 && buf != []
    ensures Pack(Decode(buf)[|Decode(buf)| - 1]) == buf[|buf| - Stride..]
  {
    var n := |Decode(buf)|;
    assert Stride * (n - 1) == |buf| - Stride;
  }

  /** Encoding the decoded vertices gives back the array: no slot is lost. */
  lemma {:induction false} EncodeDecode<T>(buf: seq<T>)
    requires |buf| % Stride == 0
    ensures Encode(Decode(buf)) == buf
  {
    if buf != [] {
      var ds := Decode(buf);
      var init := buf[..|buf| - Stride];
      DecodeDropLast(buf);
      PackLast(buf);
      EncodeDecode(init);
      assert Encode(ds) == Encode(ds[..|ds| - 1]) + Pack(ds[|ds| - 1]);
      assert buf == init + buf[|buf| - Stride..];
    }
  }
}
